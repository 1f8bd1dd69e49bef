# vcc_py client core in Dafny

This is a Dafny model of the I/O-free core of the `vcc_py` chat client. It covers seven parts:

- **Request-frame codec** (`vcc_py/sock.py`, `vcc_py/constants.py`). A request is a 512-byte frame: magic, type, uid, session and flags as signed 32-bit little-endian integers, then a 32-byte username field and a 460-byte message field. Magic, type, uid and session go through `socket.htonl` first, so on a little-endian host they appear big-endian. Each text field holds `(text + "\0").encode()`, NUL-padded or cut to the field's width. `recv` unpacks a frame and decodes each text field as strict UTF-8 up to its first NUL. When the field is not valid UTF-8, it renders the bytes before the first NUL escaped, as `repr` does. It then maps integers that `ntohl` rejects to −1 and raises on a wrong magic number. The connection's fields live in the class `Sock.Connection`. The socket is "bytes out / bytes in".
- **Plugin registry** (`vcc_py/plugin.py`). Each plugin registers, on its own `Plugin` object, send hooks (text to text or None), recv hooks (request to request or None) and commands. `Plugins` keeps the loaded plugins in load order. It threads a message through every hook, plugin by plugin and then in registration order, and stops at the first None. Merged command tables let a later plugin win a clash. Loading goes through a catalogue from plugin name to the registrations the plugin performs, in place of `importlib`.
- **Command dispatcher** (`vcc_py/commands.py`). A typed line is split on `" "` into a command and its arguments, and the command is looked up in `do_cmd_map` (`Commands.CommandTable`). Its handler then runs against the session state (`Commands.Client`). Sends are recorded as an event log of request records. `input()` reads from a sequence of lines, where running out of lines is `EOFError`. The session listings the receive loop caches while a command waits come from a sequence of replies.
- **Reply listings** (`vcc_py/bh.py`). A CTL_USRS or CTL_SESS reply carries `uid` entries of 32 bytes each in its raw message field.
- **The `ban` plugin** (`vcc_py/plugins/ban.py`): a set of banned names, a recv hook that drops their requests, and `-ban`/`-unban`.
- **The `cqd` plugin** (`vcc_py/plugins/cqd.py`): `-cqd` sends `"-cqd#" + payload + "\n"`, and its recv hook drops such messages, displaying `msg[5:-1]`.
- **The config-line parser** (`vcc_py/readconf.py`): one key/value entry per line, typed by the character at index 3.

The files, one module each:

- `wrappers.dfy`: Option and Result.
- `bytes.dfy`: bytes, `'<i'`, htonl/ntohl.
- `utf8.dfy`: strict UTF-8.
- `text.dfy`: `str.split`/`join`, Python slices, `int()`, `str()`.
- `constants.dfy`, `sock.dfy`, `bh.dfy`, `ban.dfy`, `cqd.dfy`, `readconf.dfy`, `commands.dfy`, `plugin.dfy`.

In these cases the model does what the code does, contrary to what one might expect:

- Encoding truncates an over-long text field silently; it does not reject it.
- A plugin whose import fails while `Plugins.__init__` runs stops every plugin from loading, because `__init__` then raises AttributeError. Only `add_plugin` reports the plugin and skips it.
- `-quit` prints "bye." and then raises NameError: the `ExitError` it names is defined in no file of the package.
- A send whose session is outside the wire range escapes the handler: `htonl` raises OverflowError for a negative value or one of 2³² or more, and `'<i'` raises struct.error when the swapped value does not fit a signed 32-bit integer (a low byte of 0x80 or more). This happens for `-swtch 128`, `-swtch -1`, `-incr bob -3` and a `-join` to session 128. `-swtch` and `-join` have already set `sess` by then, so every later send on the default session fails too.
- The exceptions a handler raises (ValueError from `int()`, EOFError from `input()`) escape `do_cmd`. Only KeyError is caught.
- A listing entry that is not valid UTF-8 raises in `bh.py`; there is no escaped fallback there.

## Model

| member | source | states |
|---|---|---|
| Constants.MsgSizeValue | vcc_py/constants.py:32-35 | MSG_SIZE is 512 − 5·4 − 32 = 460 |
| Constants.RequestFormatSize | vcc_py/constants.py:32-37 | the format's items (five `i`, `32s`, `460s`, little-endian, no padding) add up to exactly REQ_SIZE = 512 bytes |
| Constants.FormatSizeAppend | vcc_py/constants.py:37 | the packed size of a format is additive over its parts |
| Constants.ReqCodesDistinct | vcc_py/constants.py:20-29 | the nine REQ codes are 1..9 in order and pairwise distinct |
| Bytes.Htonl | vcc_py/sock.py:74-77 | htonl raises (None) exactly outside [0, 2³²); otherwise its little-endian bytes are the input's bytes reversed |
| Bytes.ByteSwapInvolution | vcc_py/sock.py:28-32 | swapping twice is the identity, so ntohl undoes htonl |
| Bytes.PackI32 | vcc_py/sock.py:78 | `'<i'` fails exactly outside the signed 32-bit range; otherwise it gives four bytes of two's complement, least significant first |
| Bytes.UnpackI32 | vcc_py/sock.py:85 | unpacking gives a signed 32-bit value, negative exactly when the top byte is ≥ 0x80, congruent to the unsigned reading mod 2³² |
| Bytes.UnpackPackI32 | vcc_py/sock.py:78 | unpacking what `'<i'` packed gives the integer back |
| Bytes.HtonlIsBigEndian | vcc_py/sock.py:74-77 | a value packed after htonl appears most significant byte first |
| Bytes.ToLEFromLE | vcc_py/sock.py:85 | four bytes and their unsigned value are in bijection |
| Text.Split | vcc_py/commands.py:220 | `str.split(sep)` always gives at least one piece |
| Text.SplitLength | vcc_py/commands.py:220 | a split has exactly one piece more than the separators in the line |
| Text.SplitPiecesFree | vcc_py/commands.py:220 | no piece of a split contains the separator |
| Text.JoinSplit | vcc_py/commands.py:220-222 | joining a split with the same separator gives the line back |
| Text.Join | vcc_py/commands.py:131 | `sep.join(pieces)` is as long as the pieces plus one separator between every two; it begins with the first piece, which is followed by the separator and the join of the rest |
| Text.SplitJoin | vcc_py/commands.py:131 | splitting a join of separator-free pieces gives the pieces back |
| Text.SplitHead | vcc_py/sock.py:96 | `split(sep)[0]` is everything before the first separator |
| Text.SplitFirst | vcc_py/commands.py:220 | the first piece of a split is the longest separator-free prefix: it ends at the first separator or at the end |
| Text.SliceBound | vcc_py/bh.py:19 | a Python slice bound counts negatives from the end and is clamped to [0, len] |
| Text.PySlice | vcc_py/bh.py:19 | a slice is the run of the sequence from the clamped start, element by element, and is empty exactly when the clamped stop is not past the clamped start |
| Text.PySliceNonNegative | vcc_py/bh.py:19 | a slice with non-negative bounds is the part of [start, stop) inside the sequence, and is empty past the end |
| Text.IndexOf | vcc_py/commands.py:154 | `list.index` finds the first occurrence, and is None exactly when the value is absent |
| Text.ParseInt | vcc_py/commands.py:28 | `int()` succeeds only on text whose stripped form ends in a digit, and gives a negative value only after a leading '-' |
| Text.ParseIntDigits | vcc_py/commands.py:28 | a string of ASCII digits parses to its decimal value |
| Text.ParseIntNegative | vcc_py/commands.py:28 | '-' followed by digits parses to the negated decimal value |
| Text.ParseIntString | vcc_py/commands.py:28 | `int(str(n)) == n` for every integer |
| Text.Strip | vcc_py/commands.py:28 | `int()`'s surrounding-whitespace removal leaves no whitespace at either end |
| Utf8.EncodeChar | vcc_py/sock.py:79-80 | one character encodes to one to four bytes, one byte exactly for ASCII, `[0]` exactly for NUL |
| Utf8.Encode | vcc_py/sock.py:79-80 | `str.encode()` gives one to four bytes per character, and exactly one per character when the text is all ASCII |
| Utf8.DecodeEncodeChar | vcc_py/sock.py:95-100 | decoding a character's encoding reads exactly that character and its length back |
| Utf8.EncodeAppend | vcc_py/sock.py:79-80 | encoding distributes over concatenation |
| Utf8.DecodeEncode | vcc_py/sock.py:95-100 | `s.encode().decode() == s` |
| Utf8.Decode | vcc_py/sock.py:95-100 | a successful strict decode has no more characters than bytes, and a non-empty input decodes only if its first character does |
| Utf8.EncodeDecodeChar | vcc_py/sock.py:95-100 | a decoded character was encoded by exactly the bytes it was read from |
| Utf8.EncodeDecode | vcc_py/sock.py:95-100 | strict decoding is injective: what decodes to s is exactly `s.encode()` |
| Utf8.EncodeNulFree | vcc_py/sock.py:96 | the encoding contains a zero byte exactly when the text contains NUL |
| Utf8.EncodeNuls | vcc_py/sock.py:79-80 | NUL characters encode to zero bytes, one each |
| Utf8.DecodeInvalidTail | vcc_py/sock.py:95-100 | an invalid remainder makes the whole field fail to decode, whatever precedes it |
| Sock.Resolve | vcc_py/sock.py:54-70 | an omitted session or username is the connection's own; every other argument is passed as given |
| Sock.BadNtohl | vcc_py/sock.py:28-32 | −1 exactly when ntohl would raise; otherwise a 32-bit value whose swap is the input |
| Sock.PackNetworkInt | vcc_py/sock.py:74-77 | htonl followed by `'<i'` succeeds exactly for FitsWire values and writes their bytes in network order |
| Sock.FitsWireLowByte | vcc_py/sock.py:74-77 | an unsigned value survives htonl and `'<i'` exactly when its low byte is below 0x80 |
| Sock.FromLETop | vcc_py/sock.py:85 | four bytes read below 2³¹ exactly when the last is below 0x80 |
| Sock.FixedField | vcc_py/sock.py:79-80 | the `Ns` conversion gives exactly `width` bytes: the input cut to the width, or followed by zero padding |
| Sock.TextField | vcc_py/sock.py:79-80 | a text field is always exactly its width |
| Sock.TextFieldShort | vcc_py/sock.py:79-80 | a text that leaves room for its terminator fills the field with itself followed by NULs |
| Sock.LongTextTruncated | vcc_py/sock.py:79-80 | a text of width bytes or more is cut to the width and loses its terminator; a NUL-free text then leaves no NUL in the field |
| Sock.ReprQuote | vcc_py/sock.py:25-26 | repr chooses a single or a double quote |
| Sock.ReprByte | vcc_py/sock.py:25-26 | every byte renders as one to four printable ASCII characters |
| Sock.BadBytes | vcc_py/sock.py:25-26 | bad_bytes renders any bytes as printable ASCII only |
| Sock.BadBytesPlain | vcc_py/sock.py:25-26 | printable ASCII bytes other than quotes and backslash render as themselves |
| Sock.DecodeText | vcc_py/sock.py:95-102 | a field that strictly decodes gives its text up to the first NUL; one that does not gives printable ASCII only |
| Sock.EncodeSend | vcc_py/sock.py:54-81 | `send` succeeds exactly when magic, type, uid and the effective session fit htonl and flags fits `'<i'`; the frame is 512 bytes with the effective session in network order and the effective username and the message in their fields |
| Sock.PackRequest | vcc_py/sock.py:72-81 | the frame is 512 bytes ordered magic, type, uid, session (network order), flags (raw `'<i'`), username[32], message[460]; it fails exactly when an integer does not fit, with OverflowError when htonl rejects one and struct.error when all pass htonl |
| Sock.SessionError | vcc_py/sock.py:74-78 | no error exactly when the session fits the wire; OverflowError outside [0, 2³²), otherwise struct.error |
| Sock.StandardSendError | vcc_py/sock.py:72-81 | for a request the client builds itself (VCC magic, a known type, uid 0, flags 0), the frame fails exactly when the session does not fit the wire, and then with that session's error |
| Sock.ParseFrame | vcc_py/sock.py:85-105 | a buffer that is not 512 bytes fails in unpack; a negative magic slot raises OverflowError in ntohl, any other wrong magic raises "Incorrect magin number", and it succeeds exactly when the slot holds VCC_MAGIC in network order; on success the raw fields are the buffer's slices and flags is the raw `'<i'` value |
| Sock.ParseFrameIntegers | vcc_py/sock.py:105 | type, uid and session are −1 exactly when their slot's top wire byte is ≥ 0x80; otherwise they are the network-order value of the slot |
| Sock.ParseGoodFrame | vcc_py/sock.py:103-105 | a 512-byte frame carrying VCC_MAGIC in network order decodes field by field |
| Sock.MagicField | vcc_py/sock.py:103-104 | the magic check passes exactly when the slot holds VCC_MAGIC in network order |
| Sock.NetworkField | vcc_py/sock.py:105 | a slot that bad_ntohl accepts reads back as the slot's bytes in network order |
| Sock.DecodeTextField | vcc_py/sock.py:95-100 | a NUL-free text that fits its field decodes back unchanged |
| Sock.InvalidTailFallsBack | vcc_py/sock.py:95-102 | invalid bytes after the NUL still switch the field to bad_bytes of the part before the NUL |
| Sock.NetworkIntRoundTrip | vcc_py/sock.py:74-77 | bad_ntohl of the unpacked network-order slot gives back every FitsWire value |
| Sock.MagicFitsWire | vcc_py/constants.py:14 | VCC_MAGIC can itself be sent |
| Sock.RoundTrip | vcc_py/sock.py:72-105 | recv of the frame send writes returns the same type, uid, session, flags, username and message, when the integers fit and the texts are NUL-free and fit with their terminator |
| Sock.Connection.constructor | vcc_py/sock.py:36-43 | records address, port, username and session; level 0; no reply pending; nothing sent |
| Sock.Connection.Send | vcc_py/sock.py:54-81 | writes exactly the encoded 512-byte frame once, or raises before writing anything |
| Sock.Connection.Recv | vcc_py/sock.py:83-105 | returns the frame's decoding; clears the pending-reply flag once a 512-byte frame is unpacked, even when the magic check then fails |
| Sock.Connection.WaitUntilRecv | vcc_py/sock.py:107-108 | raises the pending-reply flag |
| Bh.EntryCount | vcc_py/bh.py:18 | `range(uid)` gives max(uid, 0) entries |
| Bh.DoLsseBh | vcc_py/bh.py:16-19 | prints one strict decoding per entry, each the decoding of its slice; a UnicodeDecodeError stops the listing at the first entry that does not decode |
| Bh.DoLsBh | vcc_py/bh.py:21-24 | the same as the session listing, for the user listing |
| Bh.Entries | vcc_py/bh.py:18-19 | one slice per entry |
| Bh.PrintEntries | vcc_py/bh.py:18-19 | prints the strict decodings of the entries in order; the first entry that does not decode raises UnicodeDecodeError and stops the listing |
| Bh.DoBh | vcc_py/bh.py:26-33 | CTL_USRS goes to the user listing, CTL_SESS to the session listing, and any other type raises "Unknown response type" |
| Bh.ListingsAgree | vcc_py/bh.py:16-24 | the user and session listings slice and decode identically |
| Bh.EntryShape | vcc_py/bh.py:19 | entry i is the 32 bytes at 32·i, a shorter tail when the field ends inside it, empty past the end; NUL padding is kept |
| Bh.ConcatSnoc | vcc_py/bh.py:18-19 | concatenating entries is compatible with appending one more |
| Bh.EntriesCover | vcc_py/bh.py:18-19 | read back to back, the entries cover the first min(32·count, length) bytes exactly once |
| Ban.Filter | vcc_py/plugins/ban.py:23-27 | drops a request exactly when its sender is banned; otherwise passes it unchanged |
| Ban.BanList.constructor | vcc_py/plugins/ban.py:21 | the ban list starts empty |
| Ban.BanList.Ban | vcc_py/plugins/ban.py:29-36 | adds the name and changes no other membership |
| Ban.BanList.Unban | vcc_py/plugins/ban.py:38-45 | removes the name, raising nothing when it is absent, and changes no other membership |
| Ban.BanFilters | vcc_py/plugins/ban.py:36 | after a ban the hook drops what it dropped before plus exactly the named user's requests |
| Ban.UnbanFilters | vcc_py/plugins/ban.py:45 | after an unban the named user's requests pass unchanged and no one else's treatment changes |
| Ban.BanIdempotent | vcc_py/plugins/ban.py:36 | banning a banned name or unbanning an absent one leaves the set as it was |
| Cqd.Argument | vcc_py/plugins/cqd.py:30 | the payload is the first argument, or "CQD" without one |
| Cqd.Message | vcc_py/plugins/cqd.py:30 | the message is the prefix `-cqd#`, the payload and a final newline, nothing else |
| Cqd.NulFreeMessage | vcc_py/plugins/cqd.py:30 | a NUL-free payload makes a NUL-free message |
| Cqd.CommandSend | vcc_py/plugins/cqd.py:30 | one send of that message with every other argument at send's default |
| Cqd.Filter | vcc_py/plugins/cqd.py:32-37 | drops a request exactly when its message starts with `-cqd#`; otherwise passes it unchanged |
| Cqd.Payload | vcc_py/plugins/cqd.py:35 | `msg[5:-1]` removes the prefix and the last character, whatever it is; `-cqd#` alone (or with one character) shows as "" |
| Cqd.MessageRoundTrip | vcc_py/plugins/cqd.py:30-35 | the hook drops what `-cqd` sent and displays exactly its argument |
| Cqd.WireRoundTrip | vcc_py/plugins/cqd.py:30-35 | end to end through the codec, the received message is one the hook drops, showing the argument, when the argument is NUL-free and the message fits its field |
| ReadConf.NonEmpty | vcc_py/readconf.py:19 | keeps only non-empty pieces, each one taken from the input |
| ReadConf.NonEmptyAppend | vcc_py/readconf.py:19 | dropping empty pieces is compatible with concatenation |
| ReadConf.SplitAroundSep | vcc_py/readconf.py:19 | the pieces of x + sep + y are x's pieces followed by y's |
| ReadConf.RunsAroundSep | vcc_py/readconf.py:19 | the runs of x + "=" + y are x's runs followed by y's |
| ReadConf.SplitDoubleSep | vcc_py/readconf.py:19 | a doubled '=' adds one empty piece |
| ReadConf.NonEmptyDropsEmpty | vcc_py/readconf.py:19 | an empty piece contributes no run |
| ReadConf.DoubleSepIsSingle | vcc_py/readconf.py:19 | consecutive '=' act as a single separator |
| ReadConf.Runs | vcc_py/readconf.py:19 | every run of `[^=]+` is non-empty and '='-free |
| ReadConf.ParseLine | vcc_py/readconf.py:19 | fewer than two runs after index 5 raise IndexError; on success the key is the first run and the value is an int exactly when character 3 is 'i'; ValueError only for an 'i' line whose second run is not an integer |
| ReadConf.ParseLines | vcc_py/readconf.py:19 | the entries built so far are kept on success, and an error comes from some line |
| ReadConf.Parse | vcc_py/readconf.py:18-19 | `parse` succeeds exactly when every line of `content.split("\n")` parses |
| ReadConf.RunsLength | vcc_py/readconf.py:19 | n runs need n − 1 separators: 2n ≤ length + 1 |
| ReadConf.ShortLineFails | vcc_py/readconf.py:19 | a line shorter than 8 characters (so also one shorter than 4) raises IndexError |
| ReadConf.EmptyContentFails | vcc_py/readconf.py:19 | empty content is one empty line and raises IndexError |
| ReadConf.ParseLineTyping | vcc_py/readconf.py:19 | with two runs, the key is the first run; 'i' at index 3 converts the second with int() (ValueError when it is not an integer), anything else keeps it a string; later runs are ignored |
| ReadConf.ParseLineIgnores | vcc_py/readconf.py:19 | characters 0–2 and 4 of a line are never inspected |
| ReadConf.ParseLinesOk | vcc_py/readconf.py:19 | parsing succeeds exactly when every line parses, and otherwise raises the first failing line's error |
| ReadConf.FirstFailingLine | vcc_py/readconf.py:19 | a failing parse raises the error of a failing line all of whose predecessors parse |
| ReadConf.ParseLinesLastWins | vcc_py/readconf.py:19 | every line's key is in the result, with the value of the last line that has that key |
| ReadConf.ParseLinesKeys | vcc_py/readconf.py:19 | every key of the result comes from some line (or was already there, unchanged) |
| ReadConf.KeyKept | vcc_py/readconf.py:19 | a key no line mentions keeps its value |
| Commands.CommandLineSplit | vcc_py/commands.py:220-222 | the command and the arguments (empty ones kept) contain no space, there is one argument per space, and joined by spaces they give the line back |
| Commands.CommandOf | vcc_py/commands.py:220-221 | the command is the part of the line before the first space, or the whole line |
| Commands.ArgsOf | vcc_py/commands.py:220-222 | one space-free argument per space in the line |
| Commands.IdIn | vcc_py/commands.py:154 | the 1-based position of the first occurrence of the name in the list, or −1 exactly when it is absent |
| Commands.RefreshedFrom | vcc_py/commands.py:158-159 | a wait consumes at most one cached listing |
| Commands.CollectedLines | vcc_py/commands.py:100-105 | `-ml` collects a prefix of the input that does not contain "finish" |
| Commands.StdinAfterCollect | vcc_py/commands.py:102-105 | after collecting, the input resumes just past the "finish" line, or is exhausted |
| Commands.CommandTable.constructor | vcc_py/commands.py:195-216 | the table starts as the nineteen built-in commands |
| Commands.CommandTable.NewCommands | vcc_py/commands.py:229-230 | the names are the union; an incoming entry replaces an existing one, and names not incoming keep their handler |
| Commands.Client.constructor | vcc_py/sock.py:36-43 | the session starts with the given username, session and inputs, level 0, no cached list, nothing sent and nothing printed |
| Commands.Client.Input | vcc_py/commands.py:175 | `input()` consumes the next line, or raises EOFError (None) with nothing consumed |
| Commands.Client.ArgOrPrompt | vcc_py/commands.py:175 | `args[0] if args else input()`: input is read only without arguments |
| Commands.Client.Send | vcc_py/sock.py:66-81 | logs the request, with omitted session and username from the session state, exactly when its frame packs; otherwise it logs nothing and returns the exception, OverflowError or struct.error, as packing the frame raises it; for a request the client builds itself the only failure is a session outside the wire range |
| Commands.Client.SendStandard | vcc_py/sock.py:66-81 | for a request the client builds itself, the send fails exactly with the session's wire error, and logs the request otherwise |
| Commands.Client.Wait | vcc_py/commands.py:158-159 | logs one wait; the cached session list becomes the next listing, if one arrives |
| Commands.Client.Print | vcc_py/commands.py:168 | appends exactly one stdout line |
| Commands.Client.GetIdByName | vcc_py/commands.py:152-162 | a cached name gives its 1-based index with nothing sent; otherwise it sets `type` and sends one CTL_SESS with uid 0; when that send raises, nothing is logged, waited for or refreshed and the error is returned; otherwise it waits and looks the name up in the refreshed list |
| Commands.Client.JoinNamed | vcc_py/commands.py:176-180 | with the name known: the lookup of get_id_by_name, whose failing send raises with `sess`, the log and the console unchanged; on a found id, sets `sess` to it and sends CTL_JOINS for it, which raises for an id outside the wire range after `sess` is set; otherwise prints "No such session" and leaves `sess` unchanged |
| Commands.Client.Join | vcc_py/commands.py:173-180 | the name is the argument or one prompted line, after which the join goes, or raises, as JoinNamed states; EOF at the prompt changes nothing else |
| Commands.Client.Sid | vcc_py/commands.py:164-170 | prints the looked-up id, or "No such session"; when the lookup's send raises, nothing is printed, logged or refreshed |
| Commands.Client.Swtch | vcc_py/commands.py:25-30 | prints the old id, then sets `sess` to the parsed argument and sends CTL_JOINS for it; an id outside the wire range raises from the send with `sess` already set and nothing logged; a non-integer raises ValueError and leaves `sess` and the log unchanged |
| Commands.Client.Rl | vcc_py/commands.py:123-134 | without arguments only a notice; otherwise one relay of the other arguments joined by " ", with visible "-" meaning "" |
| Commands.Client.SendFromArg | vcc_py/commands.py:32-34 | `-newse`, `-send` and `-uinfo` send one request built from the argument or the prompt (CTL_NEWSE with it as username; MSG_SEND with it as message; CTL_UINFO with it as message, then a wait); a session outside the wire range makes the send raise, with nothing logged and no wait |
| Commands.Client.SendAndWait | vcc_py/commands.py:36-39 | `-ls`, `-lsse` and `-lself` send CTL_USRS, CTL_SESS or CTL_UINFO (with the own name) with uid 0, then wait; a session outside the wire range makes the send raise, with nothing logged and no wait |
| Commands.Client.IncrInputs | vcc_py/commands.py:71-78 | the username and increment are the two arguments with no input read, or the next two input lines, or None with the input exhausted |
| Commands.Client.Incr | vcc_py/commands.py:71-80 | two arguments, or two prompted lines, give the username and the increment; the increment travels as the session of one SYS_SCRINC, followed by a wait; an increment outside the wire range raises from the send with nothing logged or waited for; EOF or a non-integer sends nothing |
| Commands.Client.Quits | vcc_py/commands.py:182-187 | the session id is parsed (ValueError when it is not an integer), then the undefined name `sid` raises NameError; nothing is sent |
| Commands.Client.Run | vcc_py/commands.py:21-187 | each client handler does exactly what its own effect states: `-quit` prints "bye." and raises NameError; `-currs` prints the session; `-sname` raises AttributeError before sending; `-cqd` sends its one message, or raises as the send does; the others as their rows above |
| Commands.Client.RunRequest | vcc_py/commands.py:21-69 | the same for the handlers that make one request or only print |
| Commands.Client.RunSession | vcc_py/commands.py:25-187 | the same for the handlers that parse, look up, switch or relay a session, or fail at once |
| Commands.HandlerBounds | vcc_py/commands.py:21-187 | whatever a client handler does, failing sends included, it raises no KeyError of its own, only consumes input and cached replies, only appends to the events and the console, and changes `sess` only for `-swtch` and `-join` |
| Commands.RunClient | vcc_py/commands.py:224 | a client handler looked up in the table runs with its own effect and keeps those bounds |
| Commands.RunHandler | vcc_py/commands.py:224 | runs the looked-up handler with that handler's effect: a client handler as Client.Run states, `-help` as DoHelp, `-ban`/`-unban` change the ban set by exactly the name; nothing but those two changes the ban set, and logs only grow |
| Commands.DoBan | vcc_py/plugins/ban.py:29-45 | the name is the argument or one prompted line; it is added to (-ban) or discarded from (-unban) the ban list, and EOF at the prompt changes the list not at all |
| Commands.DoHelp | vcc_py/commands.py:41-48 | an unknown command name is reported on stderr |
| Commands.CollectLines | vcc_py/commands.py:100-105 | reads lines until "finish" or end of file, consuming the "finish" line |
| Commands.DoMl | vcc_py/commands.py:97-114 | runs the collected lines in order; the first unknown command is reported on stderr and ends the run, and an escaping exception ends it too |
| Commands.RunLines | vcc_py/commands.py:106-114 | each line runs as "-" + its first word with the rest as arguments; every line before `ran` had a known command, a stop on Done before the end follows an unknown one reported on stderr, and no line is run after it |
| Commands.RunMlLine | vcc_py/commands.py:107-111 | one collected line's handler runs, raising no KeyError, with the same bounds as RunHandler |
| Commands.DoCmd | vcc_py/commands.py:218-227 | an unknown command prints `Unknown command "<cmd>"` to stderr, runs no handler and changes no other state; a known one other than `-ml` has exactly its handler's effect on the session state and the ban list, as RunHandler states; every command only consumes input and cached replies, only appends to the events and the console, and keeps the username and level |
| Plugins.ApplyRecv | vcc_py/plugin.py:118-121 | the ban and cqd hooks apply their own filter |
| Plugins.Chain | vcc_py/plugin.py:106-122 | no hooks return the input unchanged; a dropped message stays dropped |
| Plugins.Ran | vcc_py/plugin.py:109-112 | at most all the hooks run |
| Plugins.ChainAppend | vcc_py/plugin.py:108-112 | running the hooks of two plugins in turn is running the second's on what the first produced |
| Plugins.ChainShortCircuits | vcc_py/plugin.py:109-112 | a chain that stops early has dropped the message, and then the last hook run dropped it after earlier ones passed something on |
| Plugins.DroppedStopsLater | vcc_py/plugin.py:110-111 | once a prefix of the hooks drops the message, no later hook runs and the result is None |
| Plugins.PassThroughChain | vcc_py/plugin.py:106-122 | pass-through hooks leave the message unchanged |
| Plugins.CmdRegsLastWins | vcc_py/plugin.py:50-54 | a re-registered name maps to the last command registered under it |
| Plugins.CmdRegsUntouched | vcc_py/plugin.py:50-54 | a name no registration binds keeps its binding |
| Plugins.Plugin.constructor | vcc_py/plugin.py:30-34 | a fresh `Plugin` has no hooks and no commands |
| Plugins.Plugin.RegisterSendHook | vcc_py/plugin.py:39-41 | appends the hook after the earlier ones and returns it unchanged |
| Plugins.Plugin.RegisterRecvHook | vcc_py/plugin.py:46-48 | appends the hook after the earlier ones and returns it unchanged |
| Plugins.Plugin.RegisterCmd | vcc_py/plugin.py:50-54 | binds the name, replacing an earlier binding, and returns the command unchanged |
| Plugins.Plugin.Perform | vcc_py/plugin.py:89 | a plugin's registrations, in order, extend both hook lists and bind its commands |
| Plugins.Advance | vcc_py/plugin.py:99-104 | next() advances a generator and raises StopIteration exactly once it has yielded all its values |
| Plugins.CommandsLaterWins | vcc_py/plugin.py:124-128 | a name maps to the command of the last plugin that has it |
| Plugins.CommandsOfKeys | vcc_py/plugin.py:124-128 | the merged names are exactly the union of the plugins' names |
| Plugins.RunHooks | vcc_py/plugin.py:109-112 | one plugin's hooks run in order, stopping at the first None |
| Plugins.Plugins.constructor | vcc_py/plugin.py:69-71 | no modules, init functions, generators or plugins yet |
| Plugins.Plugins.AddPlugin | vcc_py/plugin.py:81-94 | an unknown name prints "Cannot find the plugin" and changes nothing else; a known one is recorded and its generator advanced once; StopIteration from that advance escapes before the plugin is kept; otherwise exactly one new `Plugin` carrying its registrations is appended |
| Plugins.Plugins.LoadAll | vcc_py/plugin.py:57-79 | AttributeError exactly when some configured name is not in the catalogue, and then nothing changes; otherwise every module, init function and first-advance result is recorded in order and one `Plugin` per name is appended carrying that name's registrations; StopIteration exactly when some name's generator is empty, and then loading stops after recording that name, with the plugins before it kept |
| Plugins.Plugins.LoadKnown | vcc_py/plugin.py:74-79 | with every name known: loads them in order, stopping with StopIteration at the first empty generator |
| Plugins.Plugins.LoadNext | vcc_py/plugin.py:74-79 | one name: records its module, init function and advanced generator, then appends its `Plugin` unless the generator was empty |
| Plugins.FirstEmptyGenerator | vcc_py/plugin.py:74-79 | the position of the first init function whose generator yields nothing, or the count when there is none |
| Plugins.InitsOfAt | vcc_py/plugin.py:74-76 | the init functions looked up for the names are the catalogue's entries, position by position |
| Plugins.Plugins.Exit | vcc_py/plugin.py:99-104 | every stored generator is advanced once more; StopIteration is swallowed |
| Plugins.Plugins.SendMsg | vcc_py/plugin.py:106-113 | the text after every send hook, plugin by plugin and in registration order, or None once one drops it |
| Plugins.Plugins.RecvMsg | vcc_py/plugin.py:115-122 | the request after every recv hook in the same order, or None once one drops it |
| Plugins.Plugins.GetCommands | vcc_py/plugin.py:124-128 | every plugin's commands merged in load order, the later plugin winning a clash |
| Plugins.BanThenCqd | vcc_py/plugin.py:115-122 | with ban and cqd loaded, a request is dropped exactly when its sender is banned or it is a cqd message, and passes unchanged otherwise |

## Left out

- Sockets, connecting, the event loop and the polling loop of `wait_until_recv`: the model keeps the frames sent, the bytes received and the pending-reply flag.
- Concurrency between the receive loop and the input loop: the replies a waiting command sees are an input sequence.
- `bad_str`: nothing in the core calls it.
- The relay frame and `send_relay`: they are not defined in any file of this model, so `-rl` records the relayed text and visible name as an event.
- `vcc_py/vcc.py`, `vcc_py/pretty.py`, `vcc_py/crypt.py`, `vcc_py/config.py`, and the `m4`, `vcr`, `beep` and `raw` plugins are not part of this model. That leaves out the prompt, `show_msg`, `help_line` output and where the configured plugin names come from.
- Plugin import: a catalogue from name to registrations replaces `importlib`. The shipped plugins register through an injected `plugin` global rather than an `init` function; the catalogue records what they register.
- The `ImportError` branch of `Plugins.__init__` that assigns empty lists: the lists are never seen, because line 68 then raises. `Plugins.Plugins.LoadAll` returns `AttributeErrorRaised` and changes nothing.
- The connection a `Plugin` is given, and the connection and wall time handlers receive: no hook of this model uses them.
- The text of `input()` prompts, and the docstrings `-help` prints for a known command.
- Commands.Client.Run: `-pins` and `-pls` end in `NotModelled`, because loading a plugin from the session state needs the `Plugins` object the client model does not hold. That object's loading is `Plugins.Plugins.AddPlugin`.
- Text.ParseInt: accepts ASCII digits, an optional sign, underscores between digits and ASCII and Unicode whitespace; the non-ASCII decimal digits Python's `int()` also accepts are not modelled.
- Commands.DoCmd: a known `-ml` is described only by the bounds DoMl and RunHandler keep (input and cached replies consumed, events and console appended), not by its lines' effects.
- Commands.RunHandler: states only that the unread input and the cached replies do not grow, not exactly how much a nested `-ml` consumes.
- Commands.DoMl: does not state what each collected line's handler does, only the bounds RunHandler keeps for every handler (input and replies consumed, logs appended).
- Commands.RunLines: does not chain the per-line effects together; each line's handler is described only through those bounds.
- Commands.RunMlLine: states those bounds, not the line's effect, for the same reason.
- Sock.PackRequest: `(text + "\0").encode()` raises UnicodeEncodeError on a lone surrogate; a Dafny `char` is never a surrogate, so this error path cannot arise in the model.
- Sock.Connection.Send: for the same reason it never fails on a text field, only on an integer that does not fit.
- Commands.Client.Send: the session and username that `conn.send` uses by default are taken from the client's session state. The `Connection` a handler sees, whose `data` holds that state, is not part of this model.
- Plugins.Plugins.LoadAll: freshness of each appended `Plugin` is stated per step, by LoadNext and AddPlugin, not for the whole run. Modules and init functions are recorded name by name just before each one runs, whereas `__init__` imports every module and collects every init function first (lines 62 and 68). The two differ only in the lists left behind when StopIteration escapes `__init__`, and the half-built object is then never returned.
