# Connect Four lobby server: framing and lobby membership in Dafny

This project models the two parts of the Connect Four lobby server that carry behaviour.

1. The per-connection `Message` object of `libserver.py`.
   - Outgoing, `_create_message` builds a frame: a 2-byte big-endian header length, a JSON header
     (`byteorder`, `content-type`, `content-encoding`, `content-length`) and the content.
   - Incoming, `read` appends what `recv` returned to the receive buffer and runs three guarded
     stages: the length prefix, the JSON header with its required keys, and the request body.
   - The send buffer is appended by `create_response` and `send_json` and drained from the front
     by `_write`.
2. The single lobby of `server.py`.
   - A list of at most two player connections, filled by `accept_wrapper` and by "join" messages.
   - It is emptied by "quit" and by the main loop's exception path.
   - A broadcast goes to every member of a snapshot of the list.

Module layout:

- `wrappers.dfy` (`Wrappers`): `Option`, `Result`, `Outcome` and the Python exceptions the code can raise.
- `pyjson.dfy` (`PyJson`): JSON values as Python holds them after `json.load`, and the Python
  operations the code applies to them (truthiness, `in`, `d[key]`, `d.get`, `str()`).
  Serialisation is abstract: a `JsonCodec` value carries the encoder, the decoder and `str()`.
  The only law the proofs use is `Lawful`: decoding UTF-8 text made by the encoder gives back the
  value. It appears as a precondition, never as an axiom.
- `framing.dfy` (`Framing`): the frame layout and each parser stage as pure functions over the
  receiving fields (`RecvState`), with the round trip proved for any split of the frame into chunks.
- `libserver.dfy` (`LibServer`): the `Message` class. Each method updates its fields in place.
  `ProcessProtoheader`, `ProcessJsonheader`, `ProcessRequest` and `Read` are proved equal to the
  `Framing` function of the old fields. `Transmit` is tied to `Drain`, `CreateResponse` and `Write` to
  `ResponseFrame`, and `Receive`, `Close`, `ProcessEvents` and `SendJson` state their new fields outright.
- `server.dfy` (`Server`): the lobby as a state machine (`LobbyState` with an event log of
  sends and closes), the properties of each transition, and the `Lobby` class whose methods
  are proved to perform those transitions in place.

Python behaviour kept on purpose:

- `None` is `JNull`. A header or request that decodes to JSON `null` therefore leaves the field
  unset, as in Python.
- Subscripts raise `KeyError` on a missing key and `TypeError` on a non-dict. `in` on a JSON
  string is a substring test. A boolean `content-length` counts as 0 or 1. A negative one
  slices from the end (`PyTake`, `PyDrop`).
- A stage that raises keeps the updates it made before raising. For example,
  `process_jsonheader` has already consumed the header bytes when a required key is missing.
- `accept_wrapper` already appends the new connection (server.py:25), and a later "join" from it
  appends it again (server.py:48). `AcceptThenJoinDuplicates` shows a single client filling the
  lobby this way, and "quit" then removing only one copy.
- `list.remove` drops only the first occurrence (`RemoveFirst`).
- `process_events` returns nothing (libserver.py:107-113), so the main loop never calls
  `handle_message`. It is modelled as an operation in its own right anyway.
- `send_json` appends the encoded JSON without a frame, while `create_response` appends a full frame.

The code frames messages with a 2-byte big-endian length prefix and keeps a single lobby. It has
no board, moves or turns, so the model has none either.

## Model

| member | source | states |
|---|---|---|
| PyJson.Contains | libserver.py:165 | `key in v` is a key test on a dict, a membership test on a list and a substring test on a string. It raises TypeError, and only TypeError, exactly when `v` is none of these. |
| PyJson.Subscript | libserver.py:169 | `v[key]` succeeds exactly when `v` is a dict holding `key`, and then yields its value. It raises KeyError for a dict without the key. |
| PyJson.Get | server.py:43 | `v.get(key, default)` succeeds exactly on dicts. It yields the stored value, or the default when the key is absent. |
| PyJson.AsInt | libserver.py:170 | The integer that `>=` and slicing use: an int keeps its value and a bool counts as 1 or 0. Any other value raises TypeError, and only TypeError. |
| PyJson.Truthy | libserver.py:125 | `if v:` is false exactly for None, False, 0, "", [] and {}. |
| PyJson.PyStr | libserver.py:98 | An f-string renders a string as itself and None as "None". |
| Framing.UnpackU16 | libserver.py:147-149 | `struct.unpack(">H")` of two bytes is below 65536. |
| Framing.PackU16 | libserver.py:78 | `struct.pack(">H", n)` is two bytes that unpack to `n`. |
| Framing.PackUnpackU16 | libserver.py:147-149 | Any two bytes are the packing of the number they unpack to, so pack and unpack are inverse. |
| Framing.SliceIndex | libserver.py:172-173 | The cut Python makes for `s[:n]` and `s[n:]`: `n` itself within range, counted from the end when negative (0 when that is still negative), and the length when `n` exceeds it. |
| Framing.PyTake | libserver.py:172 | `s[:n]` is a prefix of `s` whose length is the cut. |
| Framing.PyDrop | libserver.py:173 | `s[n:]` is what follows `s[:n]`: together they rebuild `s`. For an in-range `n` exactly `n` bytes go. |
| Framing.MessageHeader | libserver.py:71-76 | The header dict is non-empty and holds all four keys the receiver requires. |
| Framing.CreateMessage | libserver.py:70-80 | The frame is the 2-byte header length, then the header bytes, then the content, so its length is 2 + header + content. It raises struct.error exactly when the header reaches 65536 bytes. |
| Framing.CreatedHeaderDescribesContent | libserver.py:71-79 | Under a lawful codec, the header decoded from a frame gives the content's byte length, type and encoding. |
| Framing.ProcessProtoheader | libserver.py:144-150 | With fewer than 2 bytes buffered nothing changes. Otherwise the length is set from exactly the first two bytes, they are removed, and the other fields are unchanged. |
| Framing.CheckRequiredHeaders | libserver.py:159-166 | On a dict, the check passes exactly when every required key is present. A failure names the first required key, in list order, that is missing. On a non-container it raises TypeError. |
| Framing.ProcessJsonheader | libserver.py:152-166 | An unknown length raises TypeError, and too few bytes leave everything unchanged. With enough bytes, a decode failure raises with nothing changed. Otherwise the header is set to what the first `len` bytes decode to, exactly those bytes are removed, and the outcome is the required-key check. |
| Framing.ContentLength | libserver.py:169-170 | An integer `content-length` is taken as is. |
| Framing.DecodeWith | libserver.py:62-68 | Decoding with a named encoding succeeds exactly when the codec decodes, with the codec's value; otherwise it is a DecodeError. |
| Framing.DecodeContent | libserver.py:175-176 | A missing "content-encoding" raises KeyError. A string encoding decodes with that name and None with the locale's encoding, succeeding exactly when the codec decodes. Any other encoding value raises TypeError. |
| Framing.ProcessRequest | libserver.py:168-180 | A missing or non-numeric length raises, and too few bytes change nothing. Otherwise exactly `content-length` bytes are cut from the front and the rest stay buffered in order. For content type "text/json" the request becomes the decoded cut bytes and the step passes, or the decode error is raised after the cut. A request is set, or the step passes, only in that case. |
| Framing.LengthStage | libserver.py:118-119 | The length stage leaves header and request alone, and does nothing once the length is known. |
| Framing.HeaderStage | libserver.py:121-123 | The header stage keeps the length and request, and does nothing while the length is unknown or once a header is set. |
| Framing.RequestStage | libserver.py:125-127 | The request stage keeps the length and header, and does nothing unless the header is truthy and no request is set. |
| Framing.Read | libserver.py:115-127 | Once length, header and request are all set, `read` only appends. While the header is truthy and the request unset, every `read` runs `process_request` again on the whole buffer; a body that decodes to None therefore cuts the next `content-length` bytes on the next `read`. |
| Framing.ReadNeverOverwrites | libserver.py:115-127 | `read` never changes a header length, header or request that is already set. |
| Framing.LengthStageConsumesFromFront | libserver.py:118-119 | The length stage leaves a suffix of the buffer. |
| Framing.HeaderStageConsumesFromFront | libserver.py:121-123 | The header stage leaves a suffix of the buffer. |
| Framing.RequestStageConsumesFromFront | libserver.py:125-127 | The request stage leaves a suffix of the buffer. |
| Framing.ReadConsumesFromFront | libserver.py:115-127 | After `read`, the buffer is a suffix of old buffer + received bytes: bytes are consumed only from the front, never reordered. |
| Framing.ProtoheaderStage | libserver.py:144-150 | On a prefix of a well-formed frame, the length stage completes exactly when two bytes are in. |
| Framing.JsonheaderStage | libserver.py:152-166 | On a prefix of a well-formed frame, the header stage completes exactly when the whole header is in, and it raises nothing. |
| Framing.RequestStageDone | libserver.py:168-176 | On a prefix of a well-formed frame, the request stage completes exactly when the whole frame is in, and it raises nothing. |
| Framing.RequestStageRepeat | libserver.py:125-127 | At the end of a well-formed frame, with nothing more buffered, a further request stage changes nothing and raises nothing, even for a body that decodes to None. |
| Framing.ReadNextBytes | libserver.py:115-127 | One `read` of the next bytes of a frame moves the parser from the state for one prefix to the state for the longer prefix. |
| Framing.ReadRest | libserver.py:115-127 | Feeding the rest of a frame in any chunks, from the state for a prefix, ends in the fully parsed state. |
| Framing.RoundTrip | libserver.py:144-176 | A fresh parser fed a text/json frame from `_create_message`, in any split, raises nothing. It recovers the header length, the header and the request, with nothing left in the buffer. |
| LibServer.EventsMask | libserver.py:21-30 | "r", "w" and "rw" map to the read bit, the write bit and both bits. Any other mode raises ValueError. |
| LibServer.ResponseBody | libserver.py:82-98 | The reply is `{"result": ...}`. It is the welcome banner exactly when the request's action is "join", and otherwise exactly `Error: invalid action "<action>".` with the action rendered by `str()` (None when absent). A request without `.get` raises AttributeError. |
| LibServer.CreateResponseJsonContent | libserver.py:82-105 | The response is text/json in utf-8, and its bytes decode (under a lawful codec) to the reply dict. |
| LibServer.ResponseFrame | libserver.py:185-191 | For content type "text/json" and a dict request, the result is `_create_message` of the encoded reply dict. A missing content type raises KeyError, another content type raises the unsupported-type error naming it, and a non-dict request raises AttributeError. |
| LibServer.ResponseRoundTrip | libserver.py:185-193 | A response frame, read back by a fresh parser in any split, yields the reply dict as its request, with no error and nothing left over. |
| LibServer.SentCount | libserver.py:49 | A send moves no more than the socket takes and no more than is pending, and it moves one of the two. |
| LibServer.Drain | libserver.py:49-50 | After a send, the buffer is the old one without the bytes sent from its front. When send raises, the buffer is unchanged. |
| LibServer.Message.constructor | libserver.py:10-19 | A new Message has empty buffers, nothing parsed, and no response created. |
| LibServer.Message.Receive | libserver.py:33-44 | `_read` appends the received bytes and reports whether any came. |
| LibServer.Message.Transmit | libserver.py:46-57 | `_write` drains the send buffer as `Drain` says. It reports success exactly when send did not raise and, if the buffer is now empty, the switch back to reading did not raise either. |
| LibServer.Message.Close | libserver.py:136-142 | The connection is marked closed. |
| LibServer.Message.ProcessEvents | libserver.py:107-113 | A read event receives and closes on nothing received. A write event with bytes pending sends, and closes when send raised or when the switch back to reading after a full drain raised. |
| LibServer.Message.ProcessProtoheader | libserver.py:144-150 | In place, the fields become `Framing.ProcessProtoheader` of the old ones. |
| LibServer.Message.ProcessJsonheader | libserver.py:152-166 | In place, including the loop over the required keys, the fields and outcome are `Framing.ProcessJsonheader` of the old fields. |
| LibServer.Message.ProcessRequest | libserver.py:168-183 | In place, the fields and outcome are `Framing.ProcessRequest` of the old fields. |
| LibServer.Message.Read | libserver.py:115-127 | In place, the fields and outcome are `Framing.Read` of the old fields and the received bytes. |
| LibServer.Message.CreateResponse | libserver.py:185-193 | Either it appends exactly one response frame and sets `response_created`, or it raises and changes nothing. |
| LibServer.Message.Write | libserver.py:129-134 | A response is built only for a parsed request without one, so at most one per request. The send buffer is then drained. |
| LibServer.Message.SendJson | libserver.py:195-197 | The encoded content is appended, unframed. |
| Server.CreateLobbyCode | server.py:13-14 | The code is 4 characters from A-Z0-9. |
| Server.EveryLobbyCodeCanBeDrawn | server.py:13-14 | Every 4-character code over that alphabet is one some draw produces. |
| Server.Delivery | server.py:81-85 | Broadcasting to one player sends it the message, followed by a close exactly when that send raised. |
| Server.BroadcastLog | server.py:80-85 | A broadcast adds one send per snapshot player plus one close per failed send, starting with the send to the first player. |
| Server.BroadcastDeliveries | server.py:78-85 | A broadcast hands the message to every snapshot player in order, whether or not other sends failed, and sends no other message. |
| Server.BroadcastCloses | server.py:80-85 | A broadcast closes exactly the players whose send failed, in order. |
| Server.BroadcastReachesEveryPlayer | server.py:78-85 | Both of the above together. |
| Server.AfterBroadcast | server.py:78-85 | A broadcast leaves the player list unchanged, failed players included, and only appends to the log. |
| Server.AfterBroadcastEvents | server.py:78-85 | The events a broadcast adds are the deliveries to the players present and the closes for failed sends only. |
| Server.RemoveFirst | server.py:65-66 | Removing a member drops one copy: length minus one, same multiset minus that one. A non-member leaves the list unchanged. |
| Server.RemoveFirstSplices | server.py:66 | Only the first occurrence goes: what precedes it and what follows it stay, in order. |
| Server.AfterAccept | server.py:17-40 | Below capacity the connection is appended, and the only events are the game-start broadcast (`BroadcastLog`) when that append fills the lobby. At capacity the list is unchanged and the connection gets the raw error send and is then closed. The capacity bound is kept. |
| Server.AcceptAnnouncesAtCapacity | server.py:22-30 | An accept announces "Game starting!" exactly when its append fills the lobby, and then to every player. |
| Server.RequestedAction | server.py:43 | The action is read through two `.get`s. It fails exactly when the message or its "content" is not a dict, and it is None when a key is absent. |
| Server.AfterJoin | server.py:46-61 | Below capacity, "join" appends the connection. Its events are exactly the lobby-code send, followed by the game-start broadcast (`BroadcastLog`) when the lobby fills and that send did not raise. It raises exactly when that send fails. At capacity the list is unchanged and the events are the error send, then a close unless that send raised. The capacity bound is kept. |
| Server.AfterMessage | server.py:42-67 | The capacity bound is kept and the log only grows. An action that cannot be read raises. An action other than "join" or "quit" changes nothing. |
| Server.JoinAdmitsBelowCapacity | server.py:47-54 | Below capacity, "join" appends the connection and first sends it the lobby code. Exactly the game-start broadcast follows, and only when the lobby fills and that send did not raise. It raises exactly when that send fails. |
| Server.WaitingIsNoAnnouncement | server.py:51-57 | The lobby-code reply is not the game-start message. |
| Server.JoinAnnouncesAtCapacity | server.py:47-57 | An admitting "join" announces the game to every player exactly when it fills the lobby, unless its own reply raised. |
| Server.JoinRejectedWhenFull | server.py:58-61 | A "join" on a full lobby leaves the list unchanged and sends the error. It then closes the connection, unless that send raised. |
| Server.QuitRemovesFirstOccurrence | server.py:63-67 | "quit" makes the list `RemoveFirst` of the old one: one copy of a member goes, and a non-member's list is unchanged. It always closes the connection and never raises. |
| Server.AfterDrop | server.py:116-121 | The exception path removes the first occurrence. For a member, the events are exactly the "Opponent disconnected." broadcast (`BroadcastLog`) to the remaining players, then the close. A non-member is only closed. The capacity bound is kept. |
| Server.DropNotifiesRemainingPlayers | server.py:118-121 | When a member drops, every remaining player, and no one else, is told "Opponent disconnected.". |
| Server.NeverOverCapacity | server.py:22-25 | Whatever sequence of accepts, messages and drops happens, the lobby never holds more than two players. |
| Server.AcceptThenJoinDuplicates | server.py:25-48 | One client accepted and then sending "join" occupies both slots. The game-start broadcast reaches it twice, and "quit" removes only one copy. |
| Server.Lobby.constructor | server.py:11 | A new lobby has its code, no players and no events. |
| Server.Lobby.Broadcast | server.py:78-85 | The loop over the snapshot performs exactly `AfterBroadcast`. |
| Server.Lobby.AcceptWrapper | server.py:17-40 | In place, the lobby becomes `AfterAccept` of the old one, within capacity. |
| Server.Lobby.HandleMessage | server.py:42-67 | In place, the lobby and outcome are `AfterMessage` of the old lobby, within capacity. |
| Server.Lobby.DropConnection | server.py:116-121 | In place, the lobby becomes `AfterDrop` of the old one, within capacity. |

## Left out

- Sockets and the selector (`recv`, `send`, `accept`, `setblocking`, `register`, `modify`, `unregister`, `close`) are left out. Received bytes and the number of bytes a send accepts are method parameters; closing is a flag on `Message` and an event in the lobby log.
- The `recv(4096)` bound is left out: `Receive` accepts chunks of any size.
- The selector-mode switches are left out: `process_request` to write (libserver.py:183), `_write` back to read (libserver.py:52-53) and `send_json` to write (libserver.py:198). Only the mode mapping (`EventsMask`) is modelled. Whether a switch raises is kept. For `_write` it is the `modifyRaises` parameter, and for `send_json` it is the `failing` set of connections. A raise of the `process_request` switch is not modelled.
- JSON serialisation (`json.dumps`, `json.load`, `io.TextIOWrapper`) is the abstract `JsonCodec`. The locale's default encoding is a field of the codec. A decode failure, including an unknown encoding name, is a single `DecodeError`.
- JSON floats are left out, and Python's `str()` of numbers, lists and dicts is left to the codec.
- `sys.byteorder` is a parameter of each `Message`.
- The randomness of `create_lobby_code` is left out: the drawn alphabet positions are a parameter.
- The lobby code starts as None in server.py:11 and is set at startup. The model's lobby is built with its code.
- All `print` logging is left out.
- The bootstrap and event loop (server.py:87-115, 122-125) are left out. Only their exception branch (server.py:116-121) is modelled, as `AfterDrop`.
- `close_connection` (server.py:69-76) is left out because nothing calls it.
- client.py is not part of this model.
