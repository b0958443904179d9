# Herta-villa SDK core in Dafny

This project models the core of the Herta-villa bot SDK for the Villa chat platform (米游社大别野) and proves properties of that model. It covers:

- **Connection layer.** The framing of the persistent connection: a fixed and a variable header, then a protobuf body. It also models the registry of packages that map protobuf messages to business types, the context manager that logs in and runs the receive loop, the reconnect loop, logout, and a turn of the heartbeat.
- **Rich text.** The conversion between message chains and the platform's rich-text content, in both directions (`text_to_content` and `parse_content`). Entity lengths and the offsets `parse_content` reads are counted in UTF-16 code units (`_c` and `_rc`); `text_to_content` advances its running offset by code points (see Findings).
- **Messages.** The `MessageChain` container and the choice of message kind in `to_content_json`, plus image messages and the component panel with its buttons.
- **Matchers.** The prefix and suffix matchers.
- **Webhook backend.** Bot registration and the response chosen for a webhook call.
- **API errors.** The API exceptions and `raise_exception`.

All the data is modelled as datatypes over `seq`, `map` and `int`, with explicit 32- and 64-bit little-endian packing. Objects whose fields the SDK updates in place are classes with `modifies` frames:

- the package registry, `WSConn`, the connection list and `WSConnection`;
- `MessageChain`;
- the webhook backend.

What lies outside the SDK becomes a parameter of the model:

- the protobuf encoders and decoders;
- pydantic's validation;
- `json.loads`;
- the REST lookups `get_text` makes;
- the clock;
- the socket.

## Model

| member | source | states |
|---|---|---|
| WsTypes.BizTypeOf | hertavilla/ws/types.py:6-23 | `BizType(v)` names a member exactly for the seventeen declared codes, and that member's value is `v` |
| WsTypes.BizValuesDistinct | hertavilla/ws/types.py:6-23 | looking up a member's value gives the member back, so no two `BizType` members share a code |
| WsTypes.ControlCodes | hertavilla/ws/types.py:13-23 | the P_HEARTBEAT, P_LOGIN, P_LOGOUT, P_KICK_OFF, SHUTDOWN and EVENT codes are 6, 7, 8, 53, 52 and 30001; SHUTDOWN and EVENT are not control-package codes |
| Bytes.PackU32 | hertavilla/ws/payload.py:54-80 | `struct.pack("<I", n)` succeeds exactly for 0 <= n < 2^32, giving four bytes whose little-endian value is n |
| Bytes.PackU64 | hertavilla/ws/payload.py:54-80 | `struct.pack("<Q", n)` succeeds exactly for 0 <= n < 2^64, giving eight bytes whose little-endian value is n |
| Bytes.PackI32 | hertavilla/ws/payload.py:54-63 | `struct.pack("<i", n)` succeeds exactly for -2^31 <= n < 2^31, and unpacking its four bytes as "<i" gives n back |
| Bytes.UnpackU32 | hertavilla/ws/payload.py:82-100 | `struct.unpack("<I", ...)` on four bytes yields a value below 2^32 |
| Bytes.UnpackU64 | hertavilla/ws/payload.py:104-108 | `struct.unpack("<Q", ...)` on eight bytes yields a value below 2^64 |
| Bytes.UnpackI32 | hertavilla/ws/payload.py:104-108 | `struct.unpack("<i", ...)` on four bytes yields a value in the signed 32-bit range |
| WsPayload.New | hertavilla/ws/payload.py:36-52 | `Payload.new` picks the 20-byte header exactly when the app id is 0 (24 bytes otherwise), and stores id, flag value, biz value, app id and body unchanged |
| WsPayload.PackVariableHeader | hertavilla/ws/payload.py:54-71 | the variable header, when `struct.pack` accepts the fields, is 24 bytes for header length 24 and 20 bytes otherwise |
| WsPayload.ToBytes | hertavilla/ws/payload.py:54-80 | `to_bytes` fails with `struct.error` exactly when a field or the total length does not fit its struct code; otherwise the frame is magic, then the body length, then the header and the body, laid out as stated |
| WsPayload.FromBytes | hertavilla/ws/payload.py:82-125 | `from_bytes` checks in order: data shorter than the fixed header gives `struct.error`; then a wrong magic gives "invalid magic" exactly when the magic differs; then "Invalid body length" exactly when 8 + body length differs from the data length; then data too short for the header-length field gives `struct.error`; then "invalid header length" exactly when it is neither 20 nor 24; then `struct.error` exactly when the data is shorter than the declared header. A decoded frame has the magic, the declared length, a known header length, the body after the header, and app id 0 with the short header |
| WsPayload.DecodeFields | hertavilla/ws/payload.py:82-125 | data whose fixed header, header length, id, flag, biz type, app id and body read back as those of `p` decodes to exactly `p` |
| WsPayload.HeaderFields | hertavilla/ws/payload.py:56-71 | the four leading fields of the packed variable header sit at byte offsets 0, 4, 12 and 16 |
| WsPayload.FrameLayout | hertavilla/ws/payload.py:72-80 | in a frame, the variable header occupies the bytes right after the 8-byte fixed header |
| WsPayload.FromBytesToBytes | hertavilla/ws/payload.py:54-125 | round trip: `from_bytes(to_bytes(p)) == p` for every packable frame with a known header length (and app id 0 with the short header) whose flag is a `FlagType`, as `Payload.new` builds them; the decoded flag is a plain integer equal to it |
| WsPayload.NewRoundTrips | hertavilla/ws/payload.py:36-125 | every frame built by `Payload.new` with packable fields decodes back to the same frame |
| WsPayload.TruncatedFrameRejected | hertavilla/ws/payload.py:88-93 | an encoded frame missing its last byte is rejected with the body-length error |
| WsPayload.CorruptMagicRejected | hertavilla/ws/payload.py:85-87 | changing any single byte of the magic is rejected with "invalid magic" |
| WsPayload.UnknownHeaderLengthRejected | hertavilla/ws/payload.py:96-102 | replacing the header length with any 32-bit value other than 20 or 24 is rejected with "invalid header length" |
| WsPackage.Register | hertavilla/ws/package.py:34-45 | `__init_subclass__` always maps the class's code to the class in `BIZ_TO_PACK`; when a stub is given, it goes into the request dict for REQUEST and the response dict otherwise, and the other dict is left unchanged |
| WsPackage.StageStep | hertavilla/ws/package.py:73-169 | running class statement k moves the three dicts from stage k to stage k+1 |
| WsPackage.LoginStage | hertavilla/ws/package.py:73-91 | the `Login` class statement registers code 7 to Login and its request stub PLogin |
| WsPackage.LoginReplyStage | hertavilla/ws/package.py:94-108 | `LoginReply` overwrites code 7 in `BIZ_TO_PACK` and registers the response stub PLoginReply |
| WsPackage.LogoutStage | hertavilla/ws/package.py:111-125 | `Logout` registers code 8 to Logout and its request stub PLogout |
| WsPackage.LogoutReplyStage | hertavilla/ws/package.py:128-139 | `LogoutReply` overwrites code 8 and registers PLogoutReply as the response stub |
| WsPackage.HeartBeatStage | hertavilla/ws/package.py:142-147 | `HeartBeat` registers code 6 and its request stub PHeartBeat |
| WsPackage.HeartBeatReplyStage | hertavilla/ws/package.py:150-158 | `HeartBeatReply` overwrites code 6 and registers PHeartBeatReply as the response stub |
| WsPackage.KickOffStage | hertavilla/ws/package.py:161-169 | `KickOff` registers code 53 with a response stub only |
| WsPackage.StagesFrom | hertavilla/ws/package.py:73-169 | the class statements from k onwards take stage k to the final dicts |
| WsPackage.ImportedTables | hertavilla/ws/package.py:27-29 | the seven class statements, starting from empty dicts, leave exactly `BIZ_TO_PACK` = {7: LoginReply, 8: LogoutReply, 6: HeartBeatReply, 53: KickOff}, request stubs for 7, 8 and 6, and response stubs for 7, 8, 6 and 53 |
| WsPackage.Registry.constructor | hertavilla/ws/package.py:27-29 | the three module-level dicts start empty |
| WsPackage.Registry.RegisterSubclass | hertavilla/ws/package.py:34-45 | the dicts after one `__init_subclass__` call are `Register` of the dicts before it |
| WsPackage.ImportPackageModule | hertavilla/ws/package.py:27-169 | importing the module leaves a fresh registry holding exactly the final dicts |
| WsPackage.RegistryFacts | hertavilla/ws/package.py:27-169 | each class in `BIZ_TO_PACK` carries the code it is stored under; the pack and response dicts have the same codes; the request dict has those codes except KickOff's 53; the base class's code 0 is in none of them |
| WsPackage.FirstMissing | hertavilla/ws/package.py:56-62 | no field is reported missing exactly when every field has an argument or a default |
| WsPackage.FromKwargs | hertavilla/ws/package.py:56-62 | `cls(**kwargs)` succeeds exactly when every keyword names a field and every field without a default is given; the result is an instance of `cls` |
| WsPackage.AsDict | hertavilla/ws/package.py:70 | `asdict(self)` has exactly the class's field names as keys |
| WsPackage.FromKwargsAsDict | hertavilla/ws/package.py:56-70 | rebuilding a package from its own `asdict` gives it back |
| WsPackage.LoginReplyDefaults | hertavilla/ws/package.py:102-106 | a LoginReply decoded without `code` or `msg` gets code 0 and msg "" |
| WsPackage.LogoutReplyDefaults | hertavilla/ws/package.py:133-137 | a LogoutReply decoded without `code` or `msg` gets code 0 and msg "" |
| WsPackage.HeartBeatReplyDefaults | hertavilla/ws/package.py:155-156 | a HeartBeatReply decoded without `code` gets code 0 |
| WsPackage.KickOffDefaults | hertavilla/ws/package.py:163-167 | an empty KickOff message decodes to code 0 and reason "" |
| WsPackage.FromProto | hertavilla/ws/package.py:47-62 | `from_proto` raises "Protobuf stub is not provided" exactly when no response stub is registered for the class's code and none is passed in; otherwise, when the chosen stub cannot parse the bytes it raises, and when it can the result is exactly the dataclass built (`FromKwargs`) from the parsed fields, success or `TypeError`; a decoded package is an instance of the class |
| WsPackage.ToProto | hertavilla/ws/package.py:66-70 | `to_proto` raises the missing-stub error exactly when no request stub is registered and none is passed in; otherwise it is exactly the serialisation of `asdict(self)` with the chosen stub, or the encoding error when that serialisation raises |
| WsPackage.RegisteredStubWins | hertavilla/ws/package.py:47-70 | for a registered code, the stub argument changes nothing in either direction (`registered or stub`) |
| WsPackage.MissingStubs | hertavilla/ws/package.py:47-70 | without a stub argument, KickOff and the base class (and only they) cannot be encoded, and only the base class cannot be decoded |
| WsConnection.SendFrame | hertavilla/ws/connection.py:53-63 | the bytes `send` writes are the request encoding of the package, framed by `Payload.new` with the package's code, the current id and flag REQUEST; a `to_proto` failure surfaces as itself; the frame decodes back to exactly that `Payload` |
| WsConnection.Dispatch | hertavilla/ws/connection.py:70-113 | `recv` after decoding the frame: EVENT yields the event `parse_event` builds from the decoded `RobotEvent`, without consulting `BIZ_TO_PACK`, and raises what the protobuf decoding or `parse_event` raises; SHUTDOWN and only SHUTDOWN raises `Reconnect`; a code that is neither and is not in `BIZ_TO_PACK` is a lookup error; for a registered code, a `from_proto` failure is raised as it is, `StopConnecting` is raised exactly for a decoded KickOff or a LogoutReply with code 0, and every other decoded package is returned unchanged |
| WsConnection.Recv | hertavilla/ws/connection.py:66-113 | `recv` on the bytes received: a frame `from_bytes` rejects raises that codec error and nothing else does; a decoded frame is classified by `Dispatch` alone |
| WsConnection.RecvFrame | hertavilla/ws/connection.py:66-113 | receiving the bytes of any well-formed frame is dispatching that frame: classification depends on the decoded fields alone |
| WsConnection.RecvRejects | hertavilla/ws/connection.py:67-68 | a frame `from_bytes` rejects surfaces as that codec error, before any dispatch |
| WsConnection.ReturnedPackages | hertavilla/ws/connection.py:93-113 | the packages `recv` returns are a LoginReply, a LogoutReply with nonzero code, or a HeartBeatReply — never a request and never KickOff |
| WsConnection.KickOffStops | hertavilla/ws/connection.py:97-104 | a decodable KickOff frame stops the session whatever its code and reason |
| WsConnection.SentFrameCarries | hertavilla/ws/connection.py:53-63 | every frame `send` writes decodes to a REQUEST frame carrying the id it was sent with and the sender's app id |
| WsConnection.WSConn.constructor | hertavilla/ws/connection.py:42-51 | a new `WSConn` starts with id 0 and nothing written |
| WsConnection.WSConn.Send | hertavilla/ws/connection.py:53-64 | `send` appends exactly the frame for the current id and then increments the id; if the encoding or the write raises, nothing is written and the id is kept; the k-th frame written always carries id k |
| WsConnection.LoginToken | hertavilla/ws/connection.py:240 | the token starts with the villa id and a dot and ends with a dot and the bot id (`{villa_id}.{secret}.{bot_id}`) |
| WsConnection.LoginPackage | hertavilla/ws/connection.py:238-244 | the Login package fails exactly when `int(ws_info['uid'])` raises; otherwise it carries the integer uid, the token, platform, app id and device id |
| WsConnection.LoginResult | hertavilla/ws/connection.py:231-259 | `_login`: a non-integer uid raises before anything is sent, and a failed write raises; once the Login is written, what the socket raises or `recv` raises is raised as it is, and otherwise the result is True exactly for a LoginReply with code 0 |
| WsConnection.LoginAcceptedIff | hertavilla/ws/connection.py:232-259 | `_login` returns True exactly when the Login is built, framed and written, and the first frame received is a LoginReply with code 0 |
| WsConnection.LoginFailsBeforeReceive | hertavilla/ws/connection.py:238-246 | once a frame is successfully received, `_login` raises only for a non-integer uid, a package that cannot be framed, or a failed write |
| WsConnection.BotInfoFirst | hertavilla/ws/connection.py:204-205 | after any run of events, `bot_info` is what it was if it was set, and otherwise the robot of the first event |
| WsConnection.BotInfoSnoc | hertavilla/ws/connection.py:204-205 | one more event sets `bot_info` only when it is still unset |
| WsConnection.BotInfoConcat | hertavilla/ws/connection.py:201-208 | dispatching two runs of events one after the other is dispatching their concatenation |
| WsConnection.ListenNext | hertavilla/ws/connection.py:201-208 | one frame of `listen_ws`: an exception ends listening with it, an event is dispatched, a returned package is ignored |
| WsConnection.ListenAcc | hertavilla/ws/connection.py:201-208 | the events dispatched do not depend on the events before them: listening after earlier events prepends those events |
| WsConnection.ListenEndsWithSocket | hertavilla/ws/connection.py:201-202 | when no frame raises, `listen_ws` ends with what the socket raises once the frames run out |
| WsConnection.ListenEndsAtFirstError | hertavilla/ws/connection.py:201-202 | the first frame whose `recv` raises ends `listen_ws` with that exception |
| WsConnection.ActionOf | hertavilla/ws/connection.py:160-178 | the loop stops exactly on `StopConnecting`, and sleeps before retrying exactly on a network error (`ClientError`/`ConnectionError`); every other exception retries at once |
| WsConnection.SessionEvents | hertavilla/ws/connection.py:134-161 | events are dispatched only after an accepted login; a failed connect dispatches nothing; a refused login retries with nothing dispatched |
| WsConnection.RunNext | hertavilla/ws/connection.py:134-183 | one pass of the `while True` loop: stop, retry after 5 seconds, or retry at once, with the pass's events appended |
| WsConnection.RunStops | hertavilla/ws/connection.py:134-183 | the loop stops exactly when some pass ends in `StopConnecting`, and every sleep is 5 seconds |
| WsConnection.NoNetworkErrorNoDelay | hertavilla/ws/connection.py:162-172 | without a network error the loop never sleeps |
| WsConnection.RemoveFirst | hertavilla/ws/connection.py:180-182 | `ws_conns.remove(x)` raises `ValueError` exactly when x is absent; otherwise it drops the first occurrence of x and keeps the rest in order, so x as the last element occurring nowhere else leaves the list without its last element |
| WsConnection.ConnList.constructor | hertavilla/ws/connection.py:116 | the module-level `ws_conns` starts empty |
| WsConnection.Owner.constructor | hertavilla/ws/connection.py:120-125 | the owner set starts empty |
| WsConnection.WSConnection.constructor | hertavilla/ws/connection.py:120-126 | a new `WSConnection` has no socket, no connection info, no heartbeat and no tasks, and sets `bot.ws` to itself |
| WsConnection.WSConnection.LoginOn | hertavilla/ws/connection.py:232-259 | `_login` returns what `LoginResult` computes, and writes exactly one Login frame, with the connection's next id, when the Login can be built, framed and written; otherwise it writes nothing |
| WsConnection.WSConnection.ListenWs | hertavilla/ws/connection.py:200-208 | `listen_ws` starts one `handle_event` task per event in order, fills in `bot_info` from the first event if it is unset, ignores returned packages, and returns the exception that ends it; nothing else changes |
| WsConnection.WSConnection.HandleEvent | hertavilla/ws/connection.py:203-208 | one event adds one task and sets `bot_info` only when it was unset |
| WsConnection.WSConnection.OnePass | hertavilla/ws/connection.py:135-183 | one pass of the loop: the new `WSConn` is appended to `ws_conns` and removed again in `finally`, the events and the next action are those of `SessionOf`, and the pass ends with no socket and the heartbeat stopped |
| WsConnection.WSConnection.Session | hertavilla/ws/connection.py:144-161 | on a fresh socket: log in, and on success start the heartbeat and listen; the events and the next action are those of `SessionOf` |
| WsConnection.WSConnection.Connect | hertavilla/ws/connection.py:128-186 | when `get_websocket_info` raises, `connect` raises before its loop and changes nothing; otherwise it keeps the connection info, its sleeps, events and stop are those of `RunFrom` over the attempts, `ws_conns` is as before, and when it stops `bot.ws` is cleared and the connection leaves its owner set |
| WsConnection.WSConnection.Logout | hertavilla/ws/connection.py:188-198 | `logout` does nothing without a socket or connection info; it fails for a non-integer uid; otherwise it writes exactly the Logout frame built from the connection info, or nothing if the send fails |
| WsConnection.WSConnection.HeartbeatTurn | hertavilla/ws/connection.py:210-220 | once the flag is down, a turn stops the loop and leaves the socket untouched; with no socket it goes round without waiting (`HeartbeatDelay`); otherwise it writes one HeartBeat frame and waits 20 seconds, or on failure writes nothing and goes round at once |
| WsConnection.HeartbeatDelay | hertavilla/ws/connection.py:210-218 | as written, a turn waits 20 seconds exactly when the flag is up, there is a socket and the heartbeat went out, and waits not at all otherwise |
| WsConnection.HeartbeatSpinsWithoutSocket | hertavilla/ws/connection.py:213-214 | a running heartbeat without a socket goes round without waiting |
| WsConnection.HeartbeatDelayIntended | hertavilla/ws/connection.py:210-218 | the intended turn waits 20 seconds whenever the heartbeat runs |
| WsConnection.IntendedHeartbeatWaits | hertavilla/ws/connection.py:210-218 | the intended heartbeat always waits while running, and agrees with the written one when a heartbeat goes out or the flag is down |
| WsConnection.LogoutPackage | hertavilla/ws/connection.py:192-197 | the Logout package, with code P_LOGOUT, carries the integer uid, the platform, the app id and the device id of the connection info |
| Decimal.ParseIntToString | hertavilla/ws/connection.py:239 | `int(str(i)) == i`: the decimal reading used for `int(ws_info['uid'])` inverts `str` |
| Decimal.IntToStringInjective | hertavilla/ws/connection.py:240 | distinct villa ids give distinct decimal forms in the login token |
| Decimal.IntToStringChars | hertavilla/ws/connection.py:216 | `str(n)` of the heartbeat timestamp holds only a minus sign and digits |
| Exceptions.RaiseException | hertavilla/exception.py:46-48 | `raise_exception` returns exactly when the retcode is present and equals 0 (False included); it raises `KeyError` exactly when the retcode is missing, or is nonzero with the message missing; otherwise it raises `CallingApiException` holding the payload's retcode and message |
| Exceptions.ToDict | hertavilla/exception.py:31-32 | `to_dict()` has exactly the keys retcode and message, holding the exception's values |
| Exceptions.RaisedToDict | hertavilla/exception.py:31-48 | for a failing payload, `to_dict()` of the raised exception is the payload restricted to retcode and message |
| Exceptions.StrRepr | hertavilla/exception.py:39 | `repr(s)` of a string of plain characters is that string in single quotes |
| Exceptions.CallingApiRepr | hertavilla/exception.py:36-43 | the representation (also `str`) starts with "<CallingApiException retcode=" and ends with '>' |
| Exceptions.CallingApiReprInjective | hertavilla/exception.py:36-43 | two exceptions with equal representations have equal retcodes and messages |
| Exceptions.HttpStatusReprAsWritten | hertavilla/exception.py:22-23 | the representation as written does not end with '>' |
| Exceptions.HttpStatusReprLosesStatus | hertavilla/exception.py:22-23 | as written, statuses 404 and 500 have the same representation |
| Exceptions.HttpStatusRepr | hertavilla/exception.py:22-23 | the corrected representation ends with '>' |
| Exceptions.HttpStatusReprReadsBack | hertavilla/exception.py:22-23 | the corrected representation gives the status back between "status=" and '>' |
| Utf16.CharUnits | hertavilla/utils.py:33-34 | a character below U+10000 is one code unit, itself and no surrogate; any other is a high surrogate followed by a low one |
| Utf16.Units | hertavilla/utils.py:33-34 | a string has between one and two code units per character |
| Utf16.EncodeUtf16 | hertavilla/utils.py:34 | `text.encode("utf-16")` is the little-endian byte-order mark followed by two bytes per code unit |
| Utf16.C | hertavilla/utils.py:33-34 | `_c(text)` is the number of UTF-16 code units of the text |
| Utf16.Rc | hertavilla/utils.py:37-38 | `_rc(n)` for n >= 0 is an even byte position past the two-byte mark; `RcOfC` and `EncodedSlice` place code unit n there |
| Utf16.CCountsUnits | hertavilla/utils.py:33-34 | `_c` counts UTF-16 code units: between one and two per character, and exactly the length when every character is below U+10000 |
| Utf16.BmpLength | hertavilla/utils.py:33-34 | a string has as many code units as characters exactly when no character is astral |
| Utf16.CAdditive | hertavilla/utils.py:33-34 | `_c("") == 0` and `_c(a + b) == _c(a) + _c(b)` |
| Utf16.UtilityExamples | tests/test_utils.py:5-11 | the utility tests' cases: two CJK characters and one emoji are two units each, and `_rc(2) == 6` |
| Utf16.RcOfC | hertavilla/utils.py:33-38 | `_rc(_c(t))` is the length of `t`'s encoding, byte-order mark included |
| Utf16.EncodedSlice | hertavilla/event.py:151 | code units a .. b of a text sit at bytes `_rc(a)` .. `_rc(b)` of its encoding |
| Utf16.EncodedFrom | hertavilla/event.py:161 | code units from a onwards sit at bytes `_rc(a)` onwards |
| Utf16.PieceUnits | hertavilla/message/text.py:206-229 | a piece of a concatenated text occupies units `_c(p)` .. `_c(p + q)` |
| Utf16.DecodeUnitsOfUnits | hertavilla/event.py:151 | strict decoding of a string's own code units gives the string back |
| Utf16.PairsOfUnitBytes | hertavilla/event.py:151 | reading little-endian byte pairs inverts writing them |
| Utf16.DecodeEncode | hertavilla/event.py:138-161 | `text.encode("utf-16").decode("utf-16") == text` |
| Utf16.Decode | hertavilla/event.py:151 | `bytes.decode("utf-16")` raises on an odd number of bytes, and gives "" for no bytes or a byte-order mark alone; `DecodeEncode` makes it the inverse of encoding |
| Utf16.DecodeBareUnits | hertavilla/event.py:151 | a slice of an encoding without its byte-order mark decodes to its text, unless that text starts with U+FEFF or U+FFFE |
| Utf16.LeadingMarkSwallowed | hertavilla/event.py:151 | a slice that starts with U+FEFF loses that character in decoding: it is read as a byte-order mark |
| Utf16.MarkBytes | hertavilla/event.py:138 | U+FEFF is written as the bytes FF FE, the little-endian mark |
| Utf16.SliceBound | hertavilla/event.py:151 | a Python slice bound is clamped to 0 .. n and is the index itself when in range |
| Utf16.PySlice | hertavilla/event.py:151 | `s[i:j]` is the sequence slice when 0 <= i <= j <= len(s) |
| Utf16.PySliceFrom | hertavilla/event.py:161 | `s[i:]` is the sequence slice when 0 <= i <= len(s) |
| Segments.NewVillaRoomLink | hertavilla/message/text.py:95-97 | `VillaRoomLink` stores both ids as decimal strings that read back as the ids |
| Segments.GetText | hertavilla/message/text.py:81-163 | `get_text` raises exactly for a quote (and for a post, which does not override it), for a room link whose room lookup fails, and for a mentioned user whose id is not an integer (`ValueError`) or whose member lookup fails; a Text gives its text, a Link its url, a room link "#" and the room name, a mention "@" and a name |
| Segments.GetMention | hertavilla/message/text.py:72-154 | `get_mention` gives (1, "") for everyone, (2, id) for a robot or a user, and nothing for every other entity |
| Segments.EntityTypesRegistered | hertavilla/message/text.py:22-160 | `entity_types` maps every `type_` to its class, and every `_TextEntity` subclass other than Text and Quote is in it |
| TextContent.JoinSnoc | hertavilla/message/text.py:231 | joining one more piece appends it |
| TextContent.EntityBody | hertavilla/message/text.py:209 | the entity dict holds "type" with the class's `type_` |
| TextContent.Step | hertavilla/message/text.py:184-229 | one loop iteration succeeds exactly for a text entity |
| TextContent.RunFromNext | hertavilla/message/text.py:184-229 | one successful iteration hands its state on to the rest of the loop |
| TextContent.MergeMention | hertavilla/message/text.py:214-227 | the mention update of one loop step is `AddMention`: the first mention sets the type, later ones keep it, and every id but that of a mention of everyone is appended in order |
| TextContent.TextToContent | hertavilla/message/text.py:175-234 | the loop of `text_to_content` returns `TextToContentSpec`: the joined texts, one entity record per entity at the running offset with its UTF-16 length, the mentions collected and the last quote |
| TextContent.RunSucceeds | hertavilla/message/text.py:184-229 | the conversion fails exactly when some segment is not a text entity or its `get_text` lookup fails |
| TextContent.LastQuoteWins | hertavilla/message/text.py:185-198 | the last Quote sets the quote info; without one it is unchanged |
| TextContent.NoMentionNoIds | hertavilla/message/text.py:214-227 | without any mention there is no mention of everyone and no user id |
| TextContent.StepMention | hertavilla/message/text.py:214-227 | one iteration adds the segment's mention, if it has one, to the mention info |
| TextContent.RunMentions | hertavilla/message/text.py:184-229 | the loop adds every mention in order |
| TextContent.MentionsCollected | hertavilla/message/text.py:214-227 | adding the mentions keeps no info without mentions, gives kind 1 once everyone is mentioned, and lists the kind-2 ids in order |
| TextContent.MentionsSplit | hertavilla/message/text.py:214-227 | the mentions from a segment are its own and those after it |
| TextContent.CollectedStep | hertavilla/message/text.py:214-227 | the collected info is preserved by a segment that mentions nobody |
| TextContent.CollectedAdd | hertavilla/message/text.py:214-227 | the collected info is preserved by adding a segment's mention |
| TextContent.MentionRule | hertavilla/message/text.py:214-233 | the result has mention info exactly when some segment mentions someone; it has kind 1 exactly when everyone is mentioned, and lists the kind-2 ids in order |
| TextContent.QuoteRule | hertavilla/message/text.py:185-232 | the result's quote is None without a Quote segment, and otherwise the info of the last one |
| TextContent.StepPiece | hertavilla/message/text.py:199-229 | one iteration appends the segment's piece, advances the offset, and records a non-text entity with its `_c` length at the current offset |
| TextContent.JoinAppend | hertavilla/message/text.py:231 | joining two runs of pieces concatenates their joins |
| TextContent.JoinPieces | hertavilla/message/text.py:231 | the joined pieces are the text |
| TextContent.RunPieces | hertavilla/message/text.py:184-229 | the loop appends the remaining pieces in order |
| TextContent.RunRecords | hertavilla/message/text.py:184-229 | the loop appends the records of the remaining entities |
| TextContent.RecordsNext | hertavilla/message/text.py:199-228 | one segment's contribution to the entity records |
| TextContent.ContentPieces | hertavilla/message/text.py:175-234 | the result text is the in-order concatenation of the pieces, and the records are those of the entities from offset 0 |
| TextContent.PlainTextsOnly | hertavilla/message/text.py:201-203 | plain texts produce no entity records |
| TextContent.BmpOffsetsAgree | hertavilla/message/text.py:228 | without astral characters, counting the offset in code points (as written) and in code units gives the same records |
| TextContent.AstralOffsetAsWritten | hertavilla/message/text.py:228 | as written, a mention after "😊" gets offset 1, inside the emoji, where the code-unit offset is 2 |
| Events.Replace | hertavilla/event.py:78 | `str.replace` with an empty replacement never lengthens the string |
| Events.ReplaceKeepsPrefix | hertavilla/event.py:78 | a prefix none of whose characters starts the pattern is kept as it is |
| Events.StripSuffix | hertavilla/event.py:78 | `cls.__name__.replace("Event", "")` strips the "Event" suffix from a class name that does not otherwise contain it |
| Events.EventsRegistered | hertavilla/event.py:68-79 | the `events` registry maps each literal type to its class and name without "Event" |
| Events.EventLookup | hertavilla/event.py:197 | `events[type_]` succeeds for an integer exactly when registered; a string or None is a `KeyError`; found entries are the registered ones |
| Events.Subscript | hertavilla/event.py:198 | `v[key]` succeeds exactly on an object holding the key, giving its value; a missing key is a `KeyError` |
| Events.Merge | hertavilla/event.py:199-200 | `payload.pop("extend_data"); payload \|= data`: with an object, the remaining keys plus data's, data's values winning; with a list, `UpdateFrom`; the empty string adds nothing and any other string raises `ValueError`; anything else raises `TypeError` |
| Events.UpdatePair | hertavilla/event.py:200 | an element `dict.update` reads as a pair: a two-element list with a string key is that pair; a list, string or object of another length raises `ValueError`; a number, boolean or None raises `TypeError` |
| Events.UpdateFrom | hertavilla/event.py:200 | `\|=` with a list succeeds exactly when every element is a pair, and otherwise raises the first bad element's error; the keys are the old ones plus the pairs' keys; a key no pair names keeps its value; the last pair with a key gives its value |
| Events.ParseEvent | hertavilla/event.py:195-201 | a missing or unregistered type is a `KeyError`; a parsed event has the class its type names |
| Events.ParseEventMerges | hertavilla/event.py:195-201 | a well-formed payload parses as its type's class, from the payload without extend_data merged with the event data |
| Events.BoolTypeIsJoinVilla | hertavilla/event.py:197 | a type of `true` hashes as 1 and reads as JoinVilla; `false` is a `KeyError` |
| Events.ContentValidation | hertavilla/event.py:135-163 | inside the validator, a `KeyError` or `AttributeError` escapes as such, and a `TypeError`, decoding error or unmodelled value becomes a validation error |
| Events.ContentErrorEscapes | hertavilla/event.py:194-201 | a well-formed payload whose validation fails with what `parse_content` (lines 135-163) raised: `parse_event` raises `KeyError` or `AttributeError` as it is, and anything else as the validation error, the only case a caller treats as a `ValueError` |
| Events.PyStr | hertavilla/message/text.py:96-97 | `str(v)` is the string itself, or the decimal form of an integer |
| Events.Construct | hertavilla/event.py:154 | `cls(**body)` raises `TypeError` when the keywords do not bind to the class's `__init__`; MentionedAll takes any keywords; a built entity is of that class |
| Events.EntityOf | hertavilla/event.py:154 | `entity_types[type_](**body)`: an unknown type is a `KeyError`; otherwise the class's constructor |
| Events.EntityStepRules | hertavilla/event.py:143-157 | one entity record: a missing "type" is a `KeyError`; at the previous end it appends the entity; after a gap it appends the gap's text, and under the corrected rule also the entity |
| Events.ParseFromStep | hertavilla/event.py:143-157 | one iteration of the loop passes its failure on or continues with the appended segments |
| Events.ParseFromEnd | hertavilla/event.py:158-163 | after the last record, the trailing text is appended when bytes remain |
| Events.AppendEntity | hertavilla/event.py:145-154 | one loop step returns `EntityStep`: a record without a type fails; an entity at the previous end is built from its body; after a gap the decoded gap text is appended, followed by the entity only under the `KeepEntity` rule (`DropEntity` is the code as written) |
| Events.TrailingText | hertavilla/event.py:158-162 | the text after the last entity is returned as `Trailing`: nothing when the encoded text ends there, otherwise the decoded rest |
| Events.ParseContent | hertavilla/event.py:135-163 | `parse_content` on the decoded "content" value returns `ParseContentValue`: the checks on `v`, then one `ReadEntity` per entity in order, then the trailing text |
| Events.ParseContentValue | hertavilla/event.py:138-163 | `v` that is not a dict raises `TypeError`; a missing "text" or "entities" raises `KeyError`; a text that is not a string raises `AttributeError` at `encode`; entities that cannot be iterated raise `TypeError` |
| Events.RawStep | hertavilla/event.py:143-157 | one iteration on a decoded entity: an entity that is not a dict raises `TypeError`; a missing "offset" or "entity" raises `KeyError`; a list body raises `TypeError` at `pop` and any other non-dict body `AttributeError`; a body without "type" raises `KeyError`; an offset that is no number raises `TypeError`; on success "length" is present and numeric, the end is offset plus length, and what is appended is `EntityStep` |
| Events.ReadEntity | hertavilla/event.py:143-157 | the loop body on one decoded entity returns `RawStep` |
| Events.Iterated | hertavilla/event.py:139-144 | `for entity in entities` iterates a list's items; an empty string or object gives no iteration; anything else raises `TypeError` |
| Events.PyInt | hertavilla/event.py:151-157 | `_rc` and `+` accept integers and booleans (as 0 and 1) and nothing else |
| Events.ParseContentTyped | hertavilla/event.py:135-163 | a content whose text is a string and whose entities are records with every key present parses exactly as `ParseContentSpec` over the typed records |
| Events.MissingKeysRaise | hertavilla/event.py:145-157 | a record missing "offset" or "entity" raises `KeyError` at once; one missing "length" raises `KeyError` only after its entity's own step succeeded, and that step's error otherwise |
| Events.EmptyContent | hertavilla/event.py:135-163 | an empty text without entities gives an empty chain |
| Events.PlainContent | hertavilla/event.py:158-163 | a text without entities gives one Text of the whole text |
| ContentRoundTrip.EntityRoundTrip | hertavilla/event.py:154 | building an entity from the dict `text_to_content` records for it gives the entity back |
| ContentRoundTrip.EntityAtEnd | hertavilla/event.py:153-157 | a record at the previous end gives back its entity alone |
| ContentRoundTrip.EntityAfterGap | hertavilla/event.py:148-157 | under the corrected rule, a record after text t gives back t and then the entity |
| ContentRoundTrip.KeptAfterGap | hertavilla/event.py:148-154 | under the corrected rule, a record after a gap appends the gap's text and the entity |
| ContentRoundTrip.TrailingTextBack | hertavilla/event.py:158-162 | the text after the last entity decodes back |
| ContentRoundTrip.GapTextBack | hertavilla/event.py:150-152 | a text between entities decodes back from its byte span |
| ContentRoundTrip.Compose | hertavilla/event.py:143-163 | one parse step and the rest of the parse make the whole parse |
| ContentRoundTrip.RoundTripFrom | hertavilla/event.py:135-163 | the round trip from any index, with the earlier chain already parsed |
| ContentRoundTrip.RoundTripEntity | hertavilla/event.py:153-157 | the round trip's step for an entity |
| ContentRoundTrip.RoundTripGap | hertavilla/event.py:148-157 | the round trip's step for a text followed by an entity |
| ContentRoundTrip.RoundTrip | hertavilla/event.py:135-163 | parsing the content a normalised chain (text entities whose `get_text` lookups go through, no quote, no empty or adjacent texts) converts to, with offsets in code units and the entity after a gap kept, gives the chain back |
| ContentRoundTrip.DroppedAfterGap | hertavilla/event.py:148-152 | as written, a single record after a gap gives the corrected chain without its entity |
| ContentRoundTrip.TextThenMention | hertavilla/message/text.py:199-228 | `[Text("a"), MentionedAll]` converts to one record at offset 1 |
| ContentRoundTrip.GapDropsEntity | hertavilla/event.py:148-152 | as written, `[Text("a"), MentionedAll]` parses back as `[Text("a")]`; the corrected rule gives the chain back |
| Chain.Segs | hertavilla/message/chain.py:69-72 | `extend` appends one segment per item, in order, with strings stored as Text |
| Chain.ItemsOf | hertavilla/message/chain.py:69-72 | a chain seen as an iterable yields its own segments, in order |
| Chain.SegsOfItems | hertavilla/message/chain.py:69-72 | extending by a chain's segments appends exactly those segments |
| Chain.Converted | hertavilla/message/chain.py:29-39 | None stands for no segment, a string for one Text, a segment for itself, and an iterable for its items in order |
| Chain.MessageChain.constructor | hertavilla/message/chain.py:29-39 | the new chain holds the segments its argument stands for |
| Chain.MessageChain.Append | hertavilla/message/chain.py:41-44 | `append` adds one segment at the end, a string as Text |
| Chain.MessageChain.Extend | hertavilla/message/chain.py:69-72 | `extend` adds the items in order and changes nothing else; the items are read before the chain grows, which is the intended reading of `c.extend(c)` (see Findings) |
| Chain.MessageChain.Copy | hertavilla/message/chain.py:46-47 | `copy` is a fresh chain with the same segments |
| Chain.MessageChain.IAdd | hertavilla/message/chain.py:58-67 | `+=` succeeds exactly for a string, a segment or an iterable, and then appends what it stands for; anything else raises `TypeError` and changes nothing; an iterable operand is read before the chain grows, so `c += c` is the intended doubling (see Findings) |
| Chain.SelfExtendAfter | hertavilla/message/chain.py:69-72 | the chain after n turns of `extend` over itself keeps its old segments in front and, when it is not empty, has grown by one segment per turn |
| Chain.SelfExtendNeverEnds | hertavilla/message/chain.py:58-72 | as written, `c.extend(c)` and `c += c` on a non-empty chain find a next item at every turn, so the loop never ends, and what they append repeats the chain; on an empty chain they end at once |
| Chain.SelfAddIntended | hertavilla/message/chain.py:58-72 | corrected: with the operand read before the chain grows, `c += c` leaves the chain followed by itself |
| Chain.MessageChain.Add | hertavilla/message/chain.py:49-52 | `+` is a fresh chain of this chain's segments followed by the operand's, or the same `TypeError`; this chain is unchanged |
| Chain.MessageChain.RAdd | hertavilla/message/chain.py:54-56 | the reflected `+` is a fresh chain of the operand's segments followed by this chain's |
| Chain.PartitionSizes | hertavilla/message/chain.py:82-88 | every segment goes to exactly one of the text-entity, image and post lists |
| Chain.NoTextLike | hertavilla/message/chain.py:82-90 | the text-entity list is empty exactly when every segment is an image or a post |
| Chain.OneImage | hertavilla/message/chain.py:82-88 | with exactly one image among posts, the image list holds just that image's content |
| Chain.NoImages | hertavilla/message/chain.py:82-88 | a chain of posts has no images, and the last post id is the last segment's |
| Chain.TwoImages | hertavilla/message/chain.py:82-88 | two image segments give at least two image contents |
| Chain.SomeImage | hertavilla/message/chain.py:82-88 | an image segment gives at least one image content |
| Chain.SelectContent | hertavilla/message/chain.py:90-130 | the choice: "Message is empty" exactly when all three lists are empty; text-like segments make it "MHY:Text", succeeding exactly when their conversion does; otherwise one image is "MHY:Image" (wrapped twice), several images give "MHY:Text", and posts alone the last post |
| Chain.EmptyRejected | hertavilla/message/chain.py:90-118 | `to_content_json` raises "Message is empty" exactly for the empty chain |
| Chain.ImageChosen | hertavilla/message/chain.py:90-98 | images and posts only, with one image: "MHY:Image" with `ImageMsgContentInfo(content=image[0])`, which wraps `image_to_content`'s dict a second time, so no image content sits under "content" |
| Chain.ContentJsonIntended | hertavilla/message/chain.py:90-98 | the corrected `to_content_json`: it never wraps the image twice, and its outcome and message kind are those of the code as written |
| Chain.ImageChosenIntended | hertavilla/message/chain.py:90-98 | corrected: the one image's content, with its url, size and file size, is what the message info holds under "content" |
| Chain.ManyImagesAsText | hertavilla/message/chain.py:97-110 | images and posts only, with several images: sent as "MHY:Text" whose text is a zero-width space |
| Chain.LastPostChosen | hertavilla/message/chain.py:111-117 | posts only: sent as the last post, "MHY:Post" (a branch no chain built in Python reaches, see Left out) |
| Chain.TextForced | hertavilla/message/chain.py:119-130 | any segment that is neither image nor post makes it "MHY:Text", which succeeds exactly when every such segment is a text entity whose `get_text` lookup goes through |
| Chain.PlaintextAppend | hertavilla/message/chain.py:154-162 | the plain text of a concatenation is the concatenation of the plain texts |
| Chain.PlaintextSingle | hertavilla/message/chain.py:154-162 | a Text contributes its text to `plaintext`, every other segment nothing |
| Chain.Plaintext | hertavilla/message/chain.py:154-162 | `plaintext` is "" without Text segments, and its length is the total length of the Text segments' texts |
| Chain.ChainTextFails | hertavilla/message/chain.py:132-152 | `get_text` raises exactly when the chain holds a quote, a post, or a segment whose lookup fails |
| Chain.ChainTextIsContentText | hertavilla/message/chain.py:145-152 | for text entities without a quote, `get_text` is the text `text_to_content` builds, spaces included |
| Chain.ChainTextOfTexts | hertavilla/message/chain.py:145-162 | for a chain of Text segments, `get_text` and `plaintext` agree |
| Chain.MessageChain.GetChainText | hertavilla/message/chain.py:132-152 | the loop of `get_text` returns `ChainText`, the texts of the segments joined in order, or the first segment's error |
| Chain.MessageChain.ToContentJson | hertavilla/message/chain.py:74-130 | the partition loop and the choice return `ContentJson`: `SelectContent` applied to the text-like, image and post segments, with the single image wrapped twice as line 98 does, and text converted with the running offset in code points as `text_to_content` does |
| ImageMsg.NewImage | hertavilla/message/image.py:26-43 | `Image(...)` succeeds exactly when both dimensions are None (no size) or both are truthy (the size dict); any other combination raises `ValueError`; url and file size are stored as given |
| ImageMsg.NewImageMsgContent | hertavilla/message/image.py:50-61 | `ImageMsgContent` keeps the url and a given size, and keeps the file size exactly when it is truthy |
| ImageMsg.ImageToContent | hertavilla/message/image.py:64-71 | `image_to_content` returns the dict `{"content": ...}` whose content carries the url and the size, and the file size only when it is nonzero |
| ImageMsg.ContentOfNewImage | hertavilla/message/image.py:26-71 | an image built from its arguments carries its dimensions and a nonzero file size into its content |
| ImageMsg.ImageText | hertavilla/message/image.py:45-46 | the text form of an image is "[图片]" |
| Components.ButtonTypeOf | hertavilla/message/component.py:132-140 | `ButtonType(v)` exists exactly for 1, 2 and 3, with that value |
| Components.NewComponent | hertavilla/message/component.py:19-33 | a `Component` keeps id, text and type, and defaults `need_callback` to True and `extra` to "" |
| Components.NewGroup | hertavilla/message/component.py:59-94 | a group validates exactly when it has at most its class's maximum of components, and otherwise raises with that maximum |
| Components.GroupLimits | hertavilla/message/component.py:14-16 | the maxima are 4 for a small group, 2 for a mid group and 1 for a big group |
| Components.NewPanel | hertavilla/message/component.py:97-113 | `Panel` raises exactly when the template id is falsy and no group list is passed; a missing group list becomes empty |
| Components.ToDict | hertavilla/message/component.py:118-127 | `to_dict` is the template id alone whenever one is stored (0 included), and otherwise the three group lists |
| Components.ZeroTemplateDropsGroups | hertavilla/message/component.py:105-127 | a panel with template id 0 and a group list is accepted, and sends `{"template_id": 0}` without its groups |
| Components.NewButton | hertavilla/message/component.py:143-168 | `Button(...)` as pydantic v1 runs it: a button of type 1 with the given id and text, the `ButtonType` of `c_type`, and the other arguments or their defaults; it is refused exactly when `c_type` is not 1, 2 or 3, or an `input` or `link` that is passed is empty for its button type (the validators do not run on defaults); an invalid `c_type` escapes as `KeyError` when a validator runs and is a validation error otherwise, and an empty passed input or link gives "input is required" or "link is required" |
| Components.InputButtonWithoutInputAccepted | hertavilla/message/component.py:149-162 | an input button built without `input` is accepted with an empty input |
| Components.NewButtonChecked | hertavilla/message/component.py:143-168 | the corrected validators: the button keeps the given id, text and `ButtonType`; an input button always has an input and a jump button always has a link, and a missing one gives "input is required" or "link is required"; where it accepts, it agrees with the constructor as written |
| Components.ButtonChecksAgreeWhenPassed | hertavilla/message/component.py:158-168 | with a valid `c_type` and both `input` and `link` passed, the validators as written and as corrected give the same outcome |
| Match.StartswithCheck | hertavilla/match.py:42-49 | `Startswith.check` holds exactly when the plain text starts with the prefix, and the result text is what follows the prefix |
| Match.EndswithAsWritten | hertavilla/match.py:59-66 | `Endswith.check` as written holds exactly when the plain text ends with the suffix; its result text is the first `len(suffix)` characters of the plain text |
| Match.EndswithCheck | hertavilla/match.py:59-66 | corrected: the same condition, and the result text is what precedes the suffix |
| Match.EndswithTextMismatch | hertavilla/match.py:63 | for plain text "abc" and suffix "c" the result as written is "a", where "ab" precedes the suffix |
| Match.EndswithAgreement | hertavilla/match.py:59-66 | the two versions match the same chains; they differ for the empty suffix and for a plain text that is the suffix itself |
| Match.EmptyPrefixMatches | hertavilla/match.py:42-49 | an empty prefix always matches, with the whole plain text as the result |
| Match.OnlyTextsMatter | hertavilla/match.py:43-60 | putting a non-Text segment into the chain changes neither check |
| Match.PrefixOfTextHead | hertavilla/match.py:42-49 | a chain starting with a Text of the prefix matches, leaving the plain text of the rest |
| ServerInternal.Endpoints | hertavilla/server/internal.py:70-73 | the router callback is called once per bot with its endpoint, in order |
| ServerInternal.Ids | hertavilla/server/internal.py:70-71 | the ids registered are exactly those of the bots given |
| ServerInternal.RegisteredIds | hertavilla/server/internal.py:70-71 | after registration the bot ids are the old ones and the new ones |
| ServerInternal.RegisteredKeeps | hertavilla/server/internal.py:70-71 | an id no new bot has keeps its bot |
| ServerInternal.RegisteredLast | hertavilla/server/internal.py:70-71 | the bot stored under an id is the last registered with that id |
| ServerInternal.ParsePayloadEvent | hertavilla/server/internal.py:88 | `parse_event` of an event that is not a JSON object raises `TypeError`; an object is parsed as a payload |
| ServerInternal.Response | hertavilla/server/internal.py:78-115 | a missing or falsy event, or a `ValueError` from parsing (a validation error, or a string `extend_data`), gives INVALID_EVENT; every other parse error escapes; OK, NO_BOT and VERIFY_FAILED only for a parsed event |
| ServerInternal.ResponseOfParsed | hertavilla/server/internal.py:93-115 | for a parsed event: no bot with the robot's id gives NO_BOT; a missing or failed signature gives VERIFY_FAILED; OK exactly when the bot exists and the signature verifies |
| ServerInternal.Backend.constructor | hertavilla/server/internal.py:31-35 | a new backend has no bots and no tasks |
| ServerInternal.Backend.RegisterBots | hertavilla/server/internal.py:65-76 | `_register_bots` stores each bot under its id, later ones overwriting earlier ones, and calls back with the endpoints in order; tasks are unchanged |
| ServerInternal.Backend.RunHandles | hertavilla/server/internal.py:78-115 | `_run_handles` returns `Response`; only OK changes anything: it starts exactly one task for the event and sets the bot's info if it had none |

## Left out

- Sockets, aiohttp and asyncio scheduling: the connection is a sequence of received frames and a log of sent ones, and a session is a finite run of them.
- The 30-second connect timeout and the network errors themselves: the outcome of each connection attempt is given as input.
- The clock: the heartbeat's millisecond timestamp is a parameter.
- The protobuf stubs and `MessageToDict`: encoding and decoding of bodies is a `ProtoCodec` parameter, and a `RobotEvent` body is passed on undecoded.
- `json.loads` on a webhook body: the payload arrives already decoded as a JSON object.
- Pydantic validation of events and messages: it is a parameter that accepts or refuses a set of fields; the User `extra` validator and `str_to_json` are not modelled.
- The REST lookups behind `get_text` (room and member names): they are a `BotEnv` parameter that either gives the name or fails; why a request fails is not modelled.
- The regular-expression and keyword matchers: they depend on Python's `re` module.
- The `current_match_result` context variable: a successful check returns its result instead.
- The background task sets and their discard callbacks, and the task manager running the heartbeat beside the receive loop: `HeartbeatTurn` models a single turn.
- Logging.
- A missing key in the `ws_info` dict raising `KeyError`: connection info is a record with every field present.
- Decimal.ParseInt: accepts an optional '-' followed by ASCII digits, leading zeros included, as `int()` does; the surrounding whitespace, the underscores, the leading '+' and the non-ASCII digits that Python's `int()` also accepts are not modelled.
- Exceptions.CallingApiRepr: gives None unless the retcode is an integer and every character of the message is printable ASCII other than `'` and `\`. So the representations of messages with escaped characters, printable non-ASCII characters (which `repr` keeps as they are) or a `'` (which makes `repr` switch quotes) are not modelled.
- WsConnection.Connect: runs over a finite sequence of attempt outcomes, where the source loops without bound until it stops.
- Chain.MessageChain.constructor: requires an argument that is None, a string, a segment or an iterable. For any other value the source's `extend` raises `TypeError` because the value is not iterable, and a constructor cannot return that error. The elements of an iterable are always strings or segments in the model; an element of another type, which the source appends unchanged, is not modelled.
- The three-argument call to `text_to_content` in `to_content_json` (hertavilla/message/chain.py): `text_to_content` (hertavilla/message/text.py:175-178) takes two arguments, so as written the call raises `TypeError` for every chain with text. The model makes the call in its two-argument form and drops the image argument, so it describes the conversion the code evidently intends.
- Post messages: `post_to_content` is reduced to the post id.
- Post segments: `Post` (hertavilla/message/post.py:18-20) does not override the abstract `get_text` of `_Segment` (hertavilla/message/types.py:14-19), so Python refuses to instantiate it and no chain can hold one. The model still lets a chain hold a `Post`, so `Chain.LastPostChosen`, the "MHY:Post" branch of `to_content_json` and the `NotImplementedError` of a post's `get_text` describe chains the source cannot build.
- Events.Construct: entity attributes are strings, plus the integer villa id of a mentioned user. A non-string `url`, `bot_id` or `user_id`, a non-integer `_villa_id`, or a list or object as a room link's ids, all of which the source's constructors store unchanged, give `ContentUnmodelled` instead of an entity.
- `MsgEncoder`, `CustomPayload` and `CustomFormData` in the utilities: they are JSON and HTTP plumbing.
- JSON floating-point numbers.
- Non-ASCII string literals in the utility tests: they are read as the Unicode text they spell.
- WsPayload.ToBytes: the flag is modelled by its integer value. `to_bytes` reads `self.flag.value`, so in the source a payload whose flag is a plain integer, as every `from_bytes` result has, raises `AttributeError`; that error is not modelled, and encoding such a payload succeeds in the model.
- Events.UpdatePair: two kinds of element give `EventUnmodelled` instead of their Python outcome. A two-element list whose first element is a number, boolean or None would store a non-string key, which the JSON object model cannot hold. A two-key object would map its first key to its second, in an order the decoded JSON does not keep.

## Findings

| source | as written | input that shows it | evidently intended | confidence | as-written member | corrected member |
|---|---|---|---|---|---|---|
| hertavilla/message/text.py:228 | the running offset advances by the number of code points of each piece, while entity lengths and the platform count UTF-16 code units | `[Text("😊"), MentionedAll]`: the mention gets offset 1, inside the emoji | the offset advances by the piece's UTF-16 length, giving 2 | not executed | TextContent.AstralOffsetAsWritten | ContentRoundTrip.RoundTrip |
| hertavilla/event.py:148-152 | when an entity's offset is past the end of the previous one, the gap is emitted as text and the entity itself is skipped | the content of `[Text("a"), MentionedAll]` parses back as `[Text("a")]` | emit the gap text and then the entity | not executed | ContentRoundTrip.GapDropsEntity | ContentRoundTrip.RoundTrip |
| hertavilla/message/component.py:158-168 | the input and link checks are field validators, which pydantic v1 does not run on missing fields that take their default | an input button built without `input` is accepted with an empty input | an input button needs an input and a jump button needs a link | not executed | Components.InputButtonWithoutInputAccepted | Components.NewButtonChecked |
| hertavilla/match.py:63 | the suffix match's text is the first `len(suffix)` characters of the plain text | plain text "abc" with suffix "c" gives "a" | the text before the suffix, "ab", mirroring the prefix match | not executed | Match.EndswithTextMismatch | Match.EndswithCheck |
| hertavilla/exception.py:23 | the representation string is not formatted and lacks the closing '>', so it shows the placeholder instead of the status | statuses 404 and 500 have the same representation | the status is interpolated and the representation closes with '>' | not executed | Exceptions.HttpStatusReprLosesStatus | Exceptions.HttpStatusReprReadsBack |
| hertavilla/ws/connection.py:213-214 | with the heartbeat flag up and no socket, the heartbeat loop `continue`s without awaiting anything; `connect` clears the socket and then awaits its 5-second sleep after a network error before the flag is lowered | a `ConnectionError` raised while listening, once the heartbeat is running, when the heartbeat's 20-second sleep ends within the 5-second retry sleep: from then on the heartbeat task never yields, so the retry sleep never ends | every turn of the heartbeat sleeps, with or without a socket | not executed | WsConnection.HeartbeatSpinsWithoutSocket | WsConnection.IntendedHeartbeatWaits |
| hertavilla/message/chain.py:98 | `image_to_content` already returns `{"content": ImageMsgContent}`, and line 98 wraps it again with `ImageMsgContentInfo(content=image[0])`, so the message info's "content" holds the wrapper, not the image content | a chain of one `Image`: its url sits at content.content.url instead of content.url | pass `image_to_content`'s dict on as it is | not executed | Chain.ImageChosen | Chain.ImageChosenIntended |

| hertavilla/message/chain.py:69-72 | `extend` iterates `obj` while appending to the chain; when `obj` is the chain itself (`c += c`, `c.extend(c)`, reached through `__iadd__` at line 66) the iterator keeps finding the segments just appended | `c = MessageChain("a"); c += c` never returns | read the operand before the chain grows, as `list.extend` does, giving the chain twice | not executed | Chain.SelfExtendNeverEnds | Chain.SelfAddIntended |
