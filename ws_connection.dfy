/** The client session of the persistent connection
    (hertavilla/ws/connection.py): `WSConn`, which frames outgoing packages
    with a running id and classifies incoming frames, and `WSConnection`,
    which logs in, listens, and reconnects until it is told to stop.
    The socket, the clock and the generated protobuf code are parameters:
    an attempt to connect is described by what the socket does (`Attempt`),
    and decoding goes through `Decoders`. */
module WsConnection {
  import opened Wrappers
  import opened Bytes
  import opened Json
  import opened WsTypes
  import opened WsPayload
  import opened WsPackage
  import Events
  import Decimal
  import ServerInternal
  import opened Seqs

  /** The fields of the `WebSocketInfo` dict the session reads. */
  datatype WsInfo = WsInfo(websocketUrl: string, uid: string, appId: int, platform: int, deviceId: string)

  /** The foreign code the session calls: the package codec,
      `MessageToDict(RobotEvent().FromString(body))` (None where it raises),
      pydantic's validation, and the robot an event names. */
  datatype Decoders = Decoders(
    codec: ProtoCodec,
    robotEvent: seq<byte> -> Option<map<string, Json>>,
    validate: (Events.EventClass, map<string, Json>) -> Events.Validation,
    robotOf: Events.ParsedEvent -> ServerInternal.RobotTemplate)

  /** An exception raised inside a session: the two control exceptions
      `Reconnect` and `StopConnecting`, an aiohttp `ClientError` or
      `ConnectionError` from the socket, or any other exception — from the
      frame codec, the `BIZ_TO_PACK` lookup, the package or event decoding,
      `int(ws_info['uid'])`, or the socket. */
  datatype SessionError =
    | Reconnect
    | StopConnecting
    | NetworkError
    | FrameError(codec: CodecError)
    | UnknownBizType(code: int)
    | PackFailed(package: PackageError)
    | EventFailed(event: Events.EventError)
    | EventDecodeFailed
    | UidNotInteger
    | OtherError

  /** What `recv` returns: a control package or a parsed event. */
  datatype Received = Pack(pack: Package) | EventIn(event: Events.ParsedEvent)

  // ---------------------------------------------------------------------
  // Framing one outgoing package
  // ---------------------------------------------------------------------

  /** The bytes `send` writes for `pack` with the current id: the request
      encoding of the package, framed by `Payload.new` with the package's
      code and flag REQUEST. The frame decodes back to exactly that frame. */
  function SendFrame(pack: Package, id: int, appId: int, codec: ProtoCodec): (r: Result<seq<byte>, SessionError>)
    ensures ToProto(pack, None, codec).Failure? ==> r == Failure(PackFailed(ToProto(pack, None, codec).error))
    ensures ToProto(pack, None, codec).Success? ==>
      (r.Success? <==> Packable(New(pack.BizType(), id, appId, Request, ToProto(pack, None, codec).value)))
    ensures r.Success? ==>
      ToProto(pack, None, codec).Success?
      && FromBytes(r.value) == Success(New(pack.BizType(), id, appId, Request, ToProto(pack, None, codec).value))
  {
    match ToProto(pack, None, codec)
    case Failure(e) => Failure(PackFailed(e))
    case Success(data) =>
      var payload := New(pack.BizType(), id, appId, Request, data);
      match ToBytes(payload)
      case Failure(e) => Failure(FrameError(e))
      case Success(b) =>
        NewRoundTrips(pack.BizType(), id, appId, Request, data);
        Success(b)
  }

  // ---------------------------------------------------------------------
  // Classifying one incoming frame
  // ---------------------------------------------------------------------

  /** `recv` after `Payload.from_bytes`: an event is decoded without
      consulting `BIZ_TO_PACK`; SHUTDOWN asks for a reconnect; any other code
      is looked up, and KickOff or a successful LogoutReply stops the
      session. Every other package is returned as it is. */
  function Dispatch(p: Payload, d: Decoders): (r: Result<Received, SessionError>)
    ensures r == Failure(Reconnect) <==> p.bizType == SHUTDOWN
    ensures (r.Success? && r.value.EventIn?) ==> p.bizType == EVENT
    ensures p.bizType == EVENT && d.robotEvent(p.body).None? ==> r == Failure(EventDecodeFailed)
    ensures p.bizType == EVENT && d.robotEvent(p.body).Some? ==>
      match Events.ParseEvent(d.robotEvent(p.body).value, d.validate)
      case Failure(e) => r == Failure(EventFailed(e))
      case Success(event) => r == Success(EventIn(event))
    ensures (r.Failure? && r.error.UnknownBizType?) <==>
      p.bizType != EVENT && p.bizType != SHUTDOWN && p.bizType !in BIZ_TO_PACK
    ensures r == Failure(StopConnecting) <==>
      && p.bizType != EVENT && p.bizType != SHUTDOWN && p.bizType in BIZ_TO_PACK
      && FromProto(BIZ_TO_PACK[p.bizType], p.body, None, d.codec).Success?
      && var pack := FromProto(BIZ_TO_PACK[p.bizType], p.body, None, d.codec).value;
         pack.KickOff? || (pack.LogoutReply? && pack.code == IntVal(0))
    ensures (r.Success? && r.value.Pack?) ==>
      && p.bizType in BIZ_TO_PACK
      && FromProto(BIZ_TO_PACK[p.bizType], p.body, None, d.codec) == Success(r.value.pack)
      && !r.value.pack.KickOff?
      && !(r.value.pack.LogoutReply? && r.value.pack.code == IntVal(0))
    ensures p.bizType != EVENT && p.bizType != SHUTDOWN && p.bizType in BIZ_TO_PACK ==>
      match FromProto(BIZ_TO_PACK[p.bizType], p.body, None, d.codec)
      case Failure(e) => r == Failure(PackFailed(e))
      case Success(pack) =>
        (pack.KickOff? || (pack.LogoutReply? && pack.code == IntVal(0))) || r == Success(Pack(pack))
  {
    if p.bizType == EVENT then
      match d.robotEvent(p.body)
      case None => Failure(EventDecodeFailed)
      case Some(m) =>
        match Events.ParseEvent(m, d.validate)
        case Failure(e) => Failure(EventFailed(e))
        case Success(event) => Success(EventIn(event))
    else if p.bizType == SHUTDOWN then Failure(Reconnect)
    else if p.bizType !in BIZ_TO_PACK then Failure(UnknownBizType(p.bizType))
    else
      match FromProto(BIZ_TO_PACK[p.bizType], p.body, None, d.codec)
      case Failure(e) => Failure(PackFailed(e))
      case Success(pack) =>
        if pack.KickOff? || (pack.LogoutReply? && pack.code == IntVal(0)) then Failure(StopConnecting)
        else Success(Pack(pack))
  }

  /** `WSConn.recv` on the bytes the socket delivered. */
  function Recv(data: seq<byte>, d: Decoders): (r: Result<Received, SessionError>)
    ensures FromBytes(data).Failure? ==> r == Failure(FrameError(FromBytes(data).error))
    ensures FromBytes(data).Success? ==> r == Dispatch(FromBytes(data).value, d)
    ensures r.Failure? && r.error.FrameError? ==> FromBytes(data).Failure?
  {
    match FromBytes(data)
    case Failure(e) => Failure(FrameError(e))
    case Success(p) => Dispatch(p, d)
  }

  /** A frame sent by the server is classified by its fields alone:
      receiving the encoding of a frame is dispatching the frame. */
  lemma RecvFrame(p: Payload, d: Decoders)
    requires RoundTrips(p)
    ensures ToBytes(p).Success? && Recv(ToBytes(p).value, d) == Dispatch(p, d)
  {
    FromBytesToBytes(p);
  }

  /** A frame `from_bytes` refuses surfaces as that codec error, before any
      dispatch. */
  lemma RecvRejects(data: seq<byte>, d: Decoders)
    requires FromBytes(data).Failure?
    ensures Recv(data, d) == Failure(FrameError(FromBytes(data).error))
  {
  }

  /** The packages `recv` returns are replies: a LoginReply, a LogoutReply
      whose code is not 0, or a HeartBeatReply — never a request, never
      KickOff. */
  lemma ReturnedPackages(p: Payload, d: Decoders)
    requires Dispatch(p, d).Success? && Dispatch(p, d).value.Pack?
    ensures var pack := Dispatch(p, d).value.pack;
      pack.LoginReply? || (pack.LogoutReply? && pack.code != IntVal(0)) || pack.HeartBeatReply?
  {
    var pack := Dispatch(p, d).value.pack;
    assert pack.Class() == BIZ_TO_PACK[p.bizType];
  }

  /** A decodable KickOff frame always stops the session, whatever its
      code and reason. */
  lemma KickOffStops(p: Payload, d: Decoders)
    requires p.bizType == P_KICK_OFF
    requires FromProto(KickOffClass, p.body, None, d.codec).Success?
    ensures Dispatch(p, d) == Failure(StopConnecting)
  {
    assert FromProto(KickOffClass, p.body, None, d.codec).value.Class() == KickOffClass;
  }

  // ---------------------------------------------------------------------
  // WSConn
  // ---------------------------------------------------------------------

  /** A frame that decodes to a request with package id k from this
      sender. */
  predicate Carries(b: seq<byte>, k: int, appId: int) {
    && FromBytes(b).Success?
    && FromBytes(b).value.id == k
    && FromBytes(b).value.flag == Request.Value()
    && FromBytes(b).value.appId == appId
  }

  /** Every frame `send` writes carries the id it was sent with. */
  lemma SentFrameCarries(pack: Package, id: int, appId: int, codec: ProtoCodec)
    requires SendFrame(pack, id, appId, codec).Success?
    ensures Carries(SendFrame(pack, id, appId, codec).value, id, appId)
  {
  }

  /** One open socket: the sender id taken from the connection info, the
      running package id, and the frames written so far. */
  class WSConn {
    const appId: int
    var id: nat
    var written: seq<seq<byte>>

    /** The k-th frame written carries id k, flag REQUEST and this sender:
        n sends carry the ids 0 .. n-1. */
    predicate Valid()
      reads this
    {
      && |written| == id
      && forall k :: 0 <= k < |written| ==> Carries(written[k], k, appId)
    }

    /** A new connection starts with id 0. */
    constructor (appId: int)
      ensures this.appId == appId && id == 0 && written == [] && Valid()
    {
      this.appId := appId;
      id := 0;
      written := [];
    }

    /** `send(pack)`: writes the frame with the current id, then increments
        the id. When the encoding raises, or the write does (`writeOk`
        false), nothing is written and the id is not consumed. */
    method Send(pack: Package, codec: ProtoCodec, writeOk: bool) returns (r: Outcome<SessionError>)
      requires Valid()
      modifies this
      ensures Valid()
      ensures SendFrame(pack, old(id), appId, codec).Failure? ==> r == Fail(SendFrame(pack, old(id), appId, codec).error)
      ensures SendFrame(pack, old(id), appId, codec).Success? && !writeOk ==> r == Fail(NetworkError)
      ensures r.Pass? <==> SendFrame(pack, old(id), appId, codec).Success? && writeOk
      ensures r.Fail? ==> id == old(id) && written == old(written)
      ensures r.Pass? ==> id == old(id) + 1 && written == old(written) + [SendFrame(pack, old(id), appId, codec).value]
    {
      var data := ToProto(pack, None, codec);
      if data.Failure? {
        return Fail(PackFailed(data.error));
      }
      var payload := New(pack.BizType(), id, appId, Request, data.value);
      var bytes := ToBytes(payload);
      if bytes.Failure? {
        return Fail(FrameError(bytes.error));
      }
      if !writeOk {
        return Fail(NetworkError);
      }
      SentFrameCarries(pack, id, appId, codec);
      written := written + [bytes.value];
      id := id + 1;
      r := Pass;
    }
  }

  // ---------------------------------------------------------------------
  // Login, listening and the reconnect loop, as functions
  // ---------------------------------------------------------------------

  /** The login token: villa id, encrypted secret and bot id, joined by
      dots. */
  function LoginToken(villaId: int, secret: string, botId: string): (t: string)
    ensures Decimal.IntToString(villaId) + "." <= t
    ensures |t| >= |botId| + 1 && t[|t| - |botId| - 1..] == "." + botId
  {
    var t := Decimal.IntToString(villaId) + "." + secret + "." + botId;
    assert t == (Decimal.IntToString(villaId) + "." + secret) + ("." + botId);
    t
  }

  /** The Login package `_login` builds; `int(ws_info['uid'])` raises for
      a uid that is not a decimal integer. */
  function LoginPackage(info: WsInfo, villaId: int, secret: string, botId: string): (r: Result<Package, SessionError>)
    ensures r.Failure? <==> Decimal.ParseInt(info.uid).None?
    ensures r.Failure? ==> r.error == UidNotInteger
    ensures r.Success? ==>
      r.value == WsPackage.Login(IntVal(Decimal.ParseInt(info.uid).value), StrVal(LoginToken(villaId, secret, botId)),
                       IntVal(info.platform), IntVal(info.appId), StrVal(info.deviceId))
  {
    match Decimal.ParseInt(info.uid)
    case None => Failure(UidNotInteger)
    case Some(uid) =>
      Success(WsPackage.Login(IntVal(uid), StrVal(LoginToken(villaId, secret, botId)), IntVal(info.platform), IntVal(info.appId), StrVal(info.deviceId)))
  }

  /** Whether `_login` gets its Login onto the socket. */
  predicate LoginSent(info: WsInfo, villaId: int, secret: string, botId: string, id: int, writeOk: bool, d: Decoders) {
    && LoginPackage(info, villaId, secret, botId).Success?
    && SendFrame(LoginPackage(info, villaId, secret, botId).value, id, info.appId, d.codec).Success?
    && writeOk
  }

  /** The reply `_login` accepts: a LoginReply whose code is 0. */
  predicate LoginAccepted(rec: Received) {
    rec.Pack? && rec.pack.LoginReply? && rec.pack.code == IntVal(0)
  }

  /** `_login` on a connection whose next id is `id`: builds the Login,
      sends it, receives once, and accepts exactly a LoginReply with code
      0. `first` is what the socket delivers next, or what it raises. */
  function LoginResult(info: WsInfo, villaId: int, secret: string, botId: string, id: int, writeOk: bool,
                       first: Result<seq<byte>, SessionError>, d: Decoders): (r: Result<bool, SessionError>)
    ensures LoginPackage(info, villaId, secret, botId).Failure? ==> r == Failure(LoginPackage(info, villaId, secret, botId).error)
    ensures LoginPackage(info, villaId, secret, botId).Success? && !writeOk ==> r.Failure?
    ensures r.Success? ==>
      && LoginSent(info, villaId, secret, botId, id, writeOk, d)
      && first.Success? && Recv(first.value, d).Success?
      && r.value == LoginAccepted(Recv(first.value, d).value)
    ensures LoginSent(info, villaId, secret, botId, id, writeOk, d) && first.Failure? ==> r == Failure(first.error)
    ensures LoginSent(info, villaId, secret, botId, id, writeOk, d) && first.Success? ==>
      r == match Recv(first.value, d)
           case Failure(e) => Failure(e)
           case Success(rec) => Success(LoginAccepted(rec))
  {
    match LoginPackage(info, villaId, secret, botId)
    case Failure(e) => Failure(e)
    case Success(login) =>
      match SendFrame(login, id, info.appId, d.codec)
      case Failure(e) => Failure(e)
      case Success(_) =>
        if !writeOk then Failure(NetworkError)
        else
          match first
          case Failure(e) => Failure(e)
          case Success(data) =>
            match Recv(data, d)
            case Failure(e) => Failure(e)
            case Success(rec) => Success(LoginAccepted(rec))
  }

  /** The login succeeds exactly when the package can be built and framed,
      the write goes through, and the first frame received is a LoginReply
      with code 0. */
  lemma LoginAcceptedIff(info: WsInfo, villaId: int, secret: string, botId: string, id: int, writeOk: bool,
                         first: Result<seq<byte>, SessionError>, d: Decoders)
    ensures LoginResult(info, villaId, secret, botId, id, writeOk, first, d) == Success(true) <==>
      && LoginPackage(info, villaId, secret, botId).Success?
      && SendFrame(LoginPackage(info, villaId, secret, botId).value, id, info.appId, d.codec).Success?
      && writeOk && first.Success?
      && Recv(first.value, d).Success? && LoginAccepted(Recv(first.value, d).value)
  {
  }

  /** Leaving the receive aside, the login fails only for a uid that is
      not an integer, a package that cannot be framed, or a failed write. */
  lemma LoginFailsBeforeReceive(info: WsInfo, villaId: int, secret: string, botId: string, id: int, writeOk: bool,
                                first: Result<seq<byte>, SessionError>, d: Decoders)
    requires first.Success? && Recv(first.value, d).Success?
    ensures LoginResult(info, villaId, secret, botId, id, writeOk, first, d).Failure? <==>
      || LoginPackage(info, villaId, secret, botId).Failure?
      || SendFrame(LoginPackage(info, villaId, secret, botId).value, id, info.appId, d.codec).Failure?
      || !writeOk
  {
  }

  /** `bot.bot_info` after a run of dispatched events: set from the first
      event's robot when it was unset, and never changed once set. */
  function BotInfoAfter(info: Option<ServerInternal.RobotTemplate>, events: seq<Events.ParsedEvent>, d: Decoders): Option<ServerInternal.RobotTemplate>
    decreases |events|
  {
    if events == [] then info
    else
      var before := BotInfoAfter(info, events[..|events| - 1], d);
      if before.None? then Some(d.robotOf(events[|events| - 1])) else before
  }

  /** The bot's info is the one it had, or else the first event's robot. */
  lemma {:induction false} BotInfoFirst(info: Option<ServerInternal.RobotTemplate>, events: seq<Events.ParsedEvent>, d: Decoders)
    ensures info.Some? ==> BotInfoAfter(info, events, d) == info
    ensures info.None? && events != [] ==> BotInfoAfter(info, events, d) == Some(d.robotOf(events[0]))
    ensures info.None? && events == [] ==> BotInfoAfter(info, events, d) == None
    decreases |events|
  {
    if events != [] {
      var n := |events| - 1;
      BotInfoFirst(info, events[..n], d);
      if n > 0 {
        assert events[..n][0] == events[0];
      }
    }
  }

  /** Dispatching one more event. */
  lemma BotInfoSnoc(info: Option<ServerInternal.RobotTemplate>, events: seq<Events.ParsedEvent>, e: Events.ParsedEvent, d: Decoders)
    ensures BotInfoAfter(info, events + [e], d) ==
      if BotInfoAfter(info, events, d).None? then Some(d.robotOf(e)) else BotInfoAfter(info, events, d)
  {
    assert (events + [e])[..|events|] == events;
  }

  /** One listening step on the frames from index i: the events dispatched
      (after `acc`) and the exception that ends `listen_ws`, `end` being what
      the socket raises once the frames run out. Returned packages are
      ignored. */
  function ListenFrom(acc: seq<Events.ParsedEvent>, frames: seq<seq<byte>>, i: nat, end: SessionError, d: Decoders): (seq<Events.ParsedEvent>, SessionError)
    requires i <= |frames|
    decreases |frames| - i
  {
    if i == |frames| then (acc, end)
    else
      match Recv(frames[i], d)
      case Failure(e) => (acc, e)
      case Success(EventIn(event)) => ListenFrom(acc + [event], frames, i + 1, end, d)
      case Success(Pack(_)) => ListenFrom(acc, frames, i + 1, end, d)
  }

  /** One frame of listening, for a receive already computed. */
  lemma ListenNext(acc: seq<Events.ParsedEvent>, frames: seq<seq<byte>>, i: nat, end: SessionError, d: Decoders,
                   rec: Result<Received, SessionError>)
    requires i < |frames| && rec == Recv(frames[i], d)
    ensures rec.Failure? ==> ListenFrom(acc, frames, i, end, d) == (acc, rec.error)
    ensures rec.Success? && rec.value.EventIn? ==>
      ListenFrom(acc, frames, i, end, d) == ListenFrom(acc + [rec.value.event], frames, i + 1, end, d)
    ensures rec.Success? && rec.value.Pack? ==>
      ListenFrom(acc, frames, i, end, d) == ListenFrom(acc, frames, i + 1, end, d)
  {
  }

  /** Listening from an accumulator is listening from nothing and
      putting the accumulator in front. */
  lemma {:induction false} ListenAcc(acc: seq<Events.ParsedEvent>, frames: seq<seq<byte>>, i: nat, end: SessionError, d: Decoders)
    requires i <= |frames|
    ensures ListenFrom(acc, frames, i, end, d) == (acc + ListenFrom([], frames, i, end, d).0, ListenFrom([], frames, i, end, d).1)
    decreases |frames| - i
  {
    if i == |frames| {
      assert acc + [] == acc;
    } else {
      var rec := Recv(frames[i], d);
      ListenNext(acc, frames, i, end, d, rec);
      ListenNext([], frames, i, end, d, rec);
      if rec.Failure? {
        assert acc + [] == acc;
      } else if rec.value.EventIn? {
        var e := rec.value.event;
        ListenAcc(acc + [e], frames, i + 1, end, d);
        ListenAcc([e], frames, i + 1, end, d);
        assert [] + [e] == [e];
        AppendAssoc(acc, [e], ListenFrom([], frames, i + 1, end, d).0);
      } else {
        ListenAcc(acc, frames, i + 1, end, d);
      }
    }
  }

  /** Listening ends with `end` exactly when no frame raises. */
  lemma {:induction false} ListenEndsWithSocket(acc: seq<Events.ParsedEvent>, frames: seq<seq<byte>>, i: nat, end: SessionError, d: Decoders)
    requires i <= |frames|
    requires forall k :: i <= k < |frames| ==> Recv(frames[k], d).Success?
    ensures ListenFrom(acc, frames, i, end, d).1 == end
    decreases |frames| - i
  {
    if i < |frames| {
      var rec := Recv(frames[i], d);
      ListenNext(acc, frames, i, end, d, rec);
      if rec.value.EventIn? {
        ListenEndsWithSocket(acc + [rec.value.event], frames, i + 1, end, d);
      } else {
        ListenEndsWithSocket(acc, frames, i + 1, end, d);
      }
    }
  }

  /** The first frame that raises ends listening with its exception. */
  lemma {:induction false} ListenEndsAtFirstError(acc: seq<Events.ParsedEvent>, frames: seq<seq<byte>>, i: nat, k: nat, end: SessionError, d: Decoders)
    requires i <= k < |frames|
    requires Recv(frames[k], d).Failure?
    requires forall m :: i <= m < k ==> Recv(frames[m], d).Success?
    ensures ListenFrom(acc, frames, i, end, d).1 == Recv(frames[k], d).error
    decreases k - i
  {
    var rec := Recv(frames[i], d);
    ListenNext(acc, frames, i, end, d, rec);
    if i < k {
      if rec.value.EventIn? {
        ListenEndsAtFirstError(acc + [rec.value.event], frames, i + 1, k, end, d);
      } else {
        ListenEndsAtFirstError(acc, frames, i + 1, k, end, d);
      }
    }
  }

  /** What one pass of the `connect` loop does next: break on
      `StopConnecting`, sleep 5 seconds and retry after a `ClientError` or
      `ConnectionError`, and retry at once after anything else — a refused
      login, `Reconnect`, or another exception. */
  datatype LoopAction = Retry | SleepThenRetry | Stop

  function ActionOf(e: SessionError): (a: LoopAction)
    ensures a == Stop <==> e == StopConnecting
    ensures a == SleepThenRetry <==> e == NetworkError
  {
    match e
    case StopConnecting => Stop
    case NetworkError => SleepThenRetry
    case _ => Retry
  }

  /** What the socket does in one pass of the loop: `ws_connect` raises, or
      it connects, the login write succeeds or raises a network error, and
      the frames arrive until the socket raises `end`. */
  datatype Attempt =
    | ConnectFailed(error: SessionError)
    | Connected(loginWriteOk: bool, incoming: seq<seq<byte>>, end: SessionError)

  /** The next frame of a socket, or what it raises. */
  function FirstFrame(incoming: seq<seq<byte>>, end: SessionError): Result<seq<byte>, SessionError> {
    if incoming == [] then Failure(end) else Success(incoming[0])
  }

  /** One pass: the events dispatched and what the loop does next. A new
      `WSConn` starts at id 0, so the Login always carries id 0. */
  function SessionOf(a: Attempt, info: WsInfo, villaId: int, secret: string, botId: string, d: Decoders): (seq<Events.ParsedEvent>, LoopAction) {
    match a
    case ConnectFailed(e) => ([], ActionOf(e))
    case Connected(writeOk, incoming, end) =>
      match LoginResult(info, villaId, secret, botId, 0, writeOk, FirstFrame(incoming, end), d)
      case Failure(e) => ([], ActionOf(e))
      case Success(false) => ([], Retry)
      case Success(true) =>
        var listened := ListenFrom([], incoming, 1, end, d);
        (listened.0, ActionOf(listened.1))
  }

  /** Events are dispatched only after an accepted login, and a pass that
      fails to connect dispatches nothing. */
  lemma SessionEvents(a: Attempt, info: WsInfo, villaId: int, secret: string, botId: string, d: Decoders)
    ensures a.ConnectFailed? ==> SessionOf(a, info, villaId, secret, botId, d) == ([], ActionOf(a.error))
    ensures SessionOf(a, info, villaId, secret, botId, d).0 != [] ==>
      a.Connected? && LoginResult(info, villaId, secret, botId, 0, a.loginWriteOk, FirstFrame(a.incoming, a.end), d) == Success(true)
    ensures a.Connected? && LoginResult(info, villaId, secret, botId, 0, a.loginWriteOk, FirstFrame(a.incoming, a.end), d) == Success(false) ==>
      SessionOf(a, info, villaId, secret, botId, d) == ([], Retry)
  {
  }

  /** The loop from pass i on: the sleeps so far, the events so far, and
      whether it stopped. It ends when the attempts run out without a stop. */
  datatype LoopResult = LoopResult(delays: seq<nat>, events: seq<Events.ParsedEvent>, stopped: bool)

  function RunFrom(attempts: seq<Attempt>, i: nat, delays: seq<nat>, events: seq<Events.ParsedEvent>,
                   info: WsInfo, villaId: int, secret: string, botId: string, d: Decoders): LoopResult
    requires i <= |attempts|
    decreases |attempts| - i
  {
    if i == |attempts| then LoopResult(delays, events, false)
    else
      var s := SessionOf(attempts[i], info, villaId, secret, botId, d);
      match s.1
      case Stop => LoopResult(delays, events + s.0, true)
      case SleepThenRetry => RunFrom(attempts, i + 1, delays + [5], events + s.0, info, villaId, secret, botId, d)
      case Retry => RunFrom(attempts, i + 1, delays, events + s.0, info, villaId, secret, botId, d)
  }

  /** One pass of the loop, for a pass already computed. */
  lemma RunNext(attempts: seq<Attempt>, i: nat, delays: seq<nat>, events: seq<Events.ParsedEvent>,
                info: WsInfo, villaId: int, secret: string, botId: string, d: Decoders, s: (seq<Events.ParsedEvent>, LoopAction))
    requires i < |attempts| && s == SessionOf(attempts[i], info, villaId, secret, botId, d)
    ensures s.1 == Stop ==> RunFrom(attempts, i, delays, events, info, villaId, secret, botId, d) == LoopResult(delays, events + s.0, true)
    ensures s.1 == SleepThenRetry ==>
      RunFrom(attempts, i, delays, events, info, villaId, secret, botId, d)
      == RunFrom(attempts, i + 1, delays + [5], events + s.0, info, villaId, secret, botId, d)
    ensures s.1 == Retry ==>
      RunFrom(attempts, i, delays, events, info, villaId, secret, botId, d)
      == RunFrom(attempts, i + 1, delays, events + s.0, info, villaId, secret, botId, d)
  {
  }

  /** The loop stops exactly when some pass ends in `StopConnecting`, and
      it only ever sleeps 5 seconds at a time. */
  lemma {:induction false} RunStops(attempts: seq<Attempt>, i: nat, delays: seq<nat>, events: seq<Events.ParsedEvent>,
                                    info: WsInfo, villaId: int, secret: string, botId: string, d: Decoders)
    requires i <= |attempts|
    ensures RunFrom(attempts, i, delays, events, info, villaId, secret, botId, d).stopped <==>
      exists k :: i <= k < |attempts| && SessionOf(attempts[k], info, villaId, secret, botId, d).1 == Stop
    ensures (forall k :: 0 <= k < |delays| ==> delays[k] == 5) ==>
      var r := RunFrom(attempts, i, delays, events, info, villaId, secret, botId, d).delays;
      forall k :: 0 <= k < |r| ==> r[k] == 5
    decreases |attempts| - i
  {
    if i < |attempts| {
      var s := SessionOf(attempts[i], info, villaId, secret, botId, d);
      if s.1 == SleepThenRetry {
        RunStops(attempts, i + 1, delays + [5], events + s.0, info, villaId, secret, botId, d);
      } else if s.1 == Retry {
        RunStops(attempts, i + 1, delays, events + s.0, info, villaId, secret, botId, d);
      }
    }
  }

  /** Without a network error there is no delay: every retry but the one
      after a `ClientError`/`ConnectionError` is immediate. */
  lemma {:induction false} NoNetworkErrorNoDelay(attempts: seq<Attempt>, i: nat, delays: seq<nat>, events: seq<Events.ParsedEvent>,
                                                 info: WsInfo, villaId: int, secret: string, botId: string, d: Decoders)
    requires i <= |attempts|
    requires forall k :: i <= k < |attempts| ==> SessionOf(attempts[k], info, villaId, secret, botId, d).1 != SleepThenRetry
    ensures RunFrom(attempts, i, delays, events, info, villaId, secret, botId, d).delays == delays
    decreases |attempts| - i
  {
    if i < |attempts| {
      var s := SessionOf(attempts[i], info, villaId, secret, botId, d);
      if s.1 == Retry {
        NoNetworkErrorNoDelay(attempts, i + 1, delays, events + s.0, info, villaId, secret, botId, d);
      }
    }
  }

  /** The index of the first occurrence of `x` in `s`. */
  function IndexOf<T(==)>(s: seq<T>, x: T): (i: nat)
    requires x in s
    ensures i < |s| && s[i] == x && x !in s[..i]
  {
    if s[0] == x then 0 else 1 + IndexOf(s[1..], x)
  }

  /** `ws_conns.remove(x)`: drops the first occurrence of `x`; when `x` is
      absent it raises `ValueError` (None). */
  function RemoveFirst<T(==)>(s: seq<T>, x: T): (r: Option<seq<T>>)
    ensures r.None? <==> x !in s
    ensures r.Some? ==> r.value == s[..IndexOf(s, x)] + s[IndexOf(s, x) + 1..]
    ensures |s| > 0 && s[|s| - 1] == x && x !in s[..|s| - 1] ==> r == Some(s[..|s| - 1])
    decreases |s|
  {
    if s == [] then None
    else if s[0] == x then Some(s[1..])
    else
      match RemoveFirst(s[1..], x)
      case None => None
      case Some(rest) =>
        assert s[1..][..IndexOf(s[1..], x)] == s[1..IndexOf(s, x)];
        assert [s[0]] + s[1..IndexOf(s, x)] == s[..IndexOf(s, x)];
        Some([s[0]] + rest)
  }

  /** The module-level list `ws_conns`. */
  class ConnList {
    var conns: seq<WSConn>

    constructor ()
      ensures conns == []
    {
      conns := [];
    }
  }

  /** The set a connection is owned by. */
  class Owner {
    var members: set<WSConnection>

    constructor ()
      ensures members == {}
    {
      members := {};
    }
  }

  // ---------------------------------------------------------------------
  // WSConnection
  // ---------------------------------------------------------------------

  /** One bot's connection manager. The bot's `test_villa_id`,
      `secret_encrypted` and `bot_id` are constants; `botWs` is whether
      `bot.ws` is this connection, `botInfo` the bot's `bot_info`, `tasks`
      the `handle_event` tasks started. */
  class WSConnection {
    const villaId: int
    const secret: string
    const botId: string
    var botInfo: Option<ServerInternal.RobotTemplate>
    var botWs: bool
    var wsConn: Option<WSConn>
    var wsInfo: Option<WsInfo>
    var heartbeatRun: bool
    var tasks: seq<Events.ParsedEvent>

    /** `WSConnection(bot, owner)`: no socket, no info, and `bot.ws` is set
        to the new connection. */
    constructor (villaId: int, secret: string, botId: string, botInfo: Option<ServerInternal.RobotTemplate>)
      ensures this.villaId == villaId && this.secret == secret && this.botId == botId
      ensures this.botInfo == botInfo && botWs && wsConn == None && wsInfo == None
      ensures !heartbeatRun && tasks == []
    {
      this.villaId := villaId;
      this.secret := secret;
      this.botId := botId;
      this.botInfo := botInfo;
      botWs := true;
      wsConn := None;
      wsInfo := None;
      heartbeatRun := false;
      tasks := [];
    }

    /** `_login(ws, ws_info)`: exactly one Login is written, with the
        connection's next id, before the single receive. */
    method LoginOn(ws: WSConn, info: WsInfo, writeOk: bool, first: Result<seq<byte>, SessionError>, d: Decoders)
      returns (r: Result<bool, SessionError>)
      requires ws.Valid() && ws.appId == info.appId
      modifies ws
      ensures ws.Valid()
      ensures r == LoginResult(info, villaId, secret, botId, old(ws.id), writeOk, first, d)
      ensures LoginSent(info, villaId, secret, botId, old(ws.id), writeOk, d) ==>
        ws.written == old(ws.written) + [SendFrame(LoginPackage(info, villaId, secret, botId).value, old(ws.id), info.appId, d.codec).value]
      ensures !LoginSent(info, villaId, secret, botId, old(ws.id), writeOk, d) ==> ws.written == old(ws.written)
    {
      var login := LoginPackage(info, villaId, secret, botId);
      if login.Failure? {
        return Failure(login.error);
      }
      var sent := ws.Send(login.value, d.codec, writeOk);
      if sent.Fail? {
        return Failure(sent.error);
      }
      if first.Failure? {
        return Failure(first.error);
      }
      var rec := Recv(first.value, d);
      if rec.Failure? {
        return Failure(rec.error);
      }
      r := Success(LoginAccepted(rec.value));
    }

    /** `listen_ws`: receives until an exception, dispatching every event
        (filling in the bot's info from the first one if it had none) and
        ignoring returned packages. The exception is returned. */
    method ListenWs(frames: seq<seq<byte>>, start: nat, end: SessionError, d: Decoders) returns (err: SessionError)
      requires start <= |frames|
      modifies this
      ensures tasks == old(tasks) + ListenFrom([], frames, start, end, d).0
      ensures err == ListenFrom([], frames, start, end, d).1
      ensures botInfo == BotInfoAfter(old(botInfo), ListenFrom([], frames, start, end, d).0, d)
      ensures botWs == old(botWs) && wsConn == old(wsConn) && wsInfo == old(wsInfo) && heartbeatRun == old(heartbeatRun)
    {
      var i := start;
      var events: seq<Events.ParsedEvent> := [];
      ghost var whole := ListenFrom([], frames, start, end, d);
      while i < |frames|
        invariant start <= i <= |frames|
        invariant ListenFrom(events, frames, i, end, d) == whole
        invariant tasks == old(tasks) + events
        invariant botInfo == BotInfoAfter(old(botInfo), events, d)
        invariant botWs == old(botWs) && wsConn == old(wsConn) && wsInfo == old(wsInfo) && heartbeatRun == old(heartbeatRun)
        decreases |frames| - i
      {
        var rec := Recv(frames[i], d);
        ListenNext(events, frames, i, end, d, rec);
        if rec.Failure? {
          return rec.error;
        }
        if rec.value.EventIn? {
          var event := rec.value.event;
          BotInfoSnoc(old(botInfo), events, event, d);
          AppendAssoc(old(tasks), events, [event]);
          HandleEvent(event, d);
          events := events + [event];
        }
        i := i + 1;
      }
      err := end;
    }

    /** What `listen_ws` does with an event: fill in the bot's info if it
        had none, and start a `handle_event` task. */
    method HandleEvent(event: Events.ParsedEvent, d: Decoders)
      modifies this
      ensures tasks == old(tasks) + [event]
      ensures botInfo == if old(botInfo).None? then Some(d.robotOf(event)) else old(botInfo)
      ensures botWs == old(botWs) && wsConn == old(wsConn) && wsInfo == old(wsInfo) && heartbeatRun == old(heartbeatRun)
    {
      if botInfo.None? {
        botInfo := Some(d.robotOf(event));
      }
      tasks := tasks + [event];
    }

    /** One pass of the `connect` loop: connect, register the `WSConn`,
        log in, start the heartbeat and listen; whatever happens, the pass
        ends with the `WSConn` removed from `ws_conns`, no current socket
        and the heartbeat stopped. */
    method OnePass(conns: ConnList, info: WsInfo, a: Attempt, d: Decoders) returns (action: LoopAction, events: seq<Events.ParsedEvent>)
      modifies this, conns
      ensures (events, action) == SessionOf(a, info, villaId, secret, botId, d)
      ensures tasks == old(tasks) + events
      ensures botInfo == BotInfoAfter(old(botInfo), events, d)
      ensures conns.conns == old(conns.conns)
      ensures wsConn == None && !heartbeatRun
      ensures botWs == old(botWs) && wsInfo == old(wsInfo)
    {
      if a.ConnectFailed? {
        wsConn := None;
        heartbeatRun := false;
        assert tasks == old(tasks) + [];
        return ActionOf(a.error), [];
      }
      var ws := new WSConn(info.appId);
      assert ws !in conns.conns;
      conns.conns := conns.conns + [ws];
      wsConn := Some(ws);
      action, events := Session(ws, info, a, d);
      assert conns.conns[..|conns.conns| - 1] == old(conns.conns);
      conns.conns := RemoveFirst(conns.conns, ws).value;
      wsConn := None;
      heartbeatRun := false;
    }

    /** The body of a pass on a fresh socket `ws`: log in, and on success
        raise the heartbeat flag and listen. */
    method Session(ws: WSConn, info: WsInfo, a: Attempt, d: Decoders) returns (action: LoopAction, events: seq<Events.ParsedEvent>)
      requires a.Connected? && ws.Valid() && ws.id == 0 && ws.appId == info.appId
      modifies this, ws
      ensures (events, action) == SessionOf(a, info, villaId, secret, botId, d)
      ensures tasks == old(tasks) + events
      ensures botInfo == BotInfoAfter(old(botInfo), events, d)
      ensures botWs == old(botWs) && wsInfo == old(wsInfo) && wsConn == old(wsConn)
    {
      var login := LoginOn(ws, info, a.loginWriteOk, FirstFrame(a.incoming, a.end), d);
      if login.Failure? {
        assert tasks == old(tasks) + [];
        return ActionOf(login.error), [];
      } else if !login.value {
        assert tasks == old(tasks) + [];
        return Retry, [];
      }
      heartbeatRun := true;
      var err := ListenWs(a.incoming, 1, a.end, d);
      events := ListenFrom([], a.incoming, 1, a.end, d).0;
      action := ActionOf(err);
    }

    /** `connect()`: fetches the connection info once (`fetched`, None
        where `get_websocket_info` raises) and makes passes until one ends
        in `StopConnecting`; then `bot.ws` is cleared and the connection
        leaves its owner. When the fetch raises, the exception leaves
        `connect` before the loop (`infoRaised`) and nothing is changed.
        `attempts` is what the socket does on each pass; if they run out
        first, the loop is still running. */
    method Connect(conns: ConnList, owner: Owner, fetched: Option<WsInfo>, attempts: seq<Attempt>, d: Decoders)
      returns (infoRaised: bool, delays: seq<nat>, stopped: bool)
      modifies this, conns, owner
      ensures infoRaised <==> fetched.None?
      ensures infoRaised ==>
        && delays == [] && !stopped
        && wsInfo == old(wsInfo) && wsConn == old(wsConn) && heartbeatRun == old(heartbeatRun)
        && tasks == old(tasks) && botInfo == old(botInfo)
        && botWs == old(botWs) && owner.members == old(owner.members)
      ensures fetched.Some? ==> wsInfo == fetched
      ensures fetched.Some? ==> var r := RunFrom(attempts, 0, [], [], fetched.value, villaId, secret, botId, d);
        && delays == r.delays && stopped == r.stopped
        && tasks == old(tasks) + r.events
        && botInfo == BotInfoAfter(old(botInfo), r.events, d)
      ensures conns.conns == old(conns.conns)
      ensures fetched.Some? && attempts != [] ==> wsConn == None && !heartbeatRun
      ensures stopped ==> !botWs && owner.members == old(owner.members) - {this}
      ensures !stopped ==> botWs == old(botWs) && owner.members == old(owner.members)
    {
      delays, stopped := [], false;
      if fetched.None? {
        return true, delays, stopped;
      }
      infoRaised := false;
      var info := fetched.value;
      wsInfo := Some(info);
      ghost var events: seq<Events.ParsedEvent> := [];
      ghost var whole := RunFrom(attempts, 0, [], [], info, villaId, secret, botId, d);
      var i := 0;
      while i < |attempts|
        invariant 0 <= i <= |attempts|
        invariant RunFrom(attempts, i, delays, events, info, villaId, secret, botId, d) == whole
        invariant tasks == old(tasks) + events
        invariant botInfo == BotInfoAfter(old(botInfo), events, d)
        invariant conns.conns == old(conns.conns) && wsInfo == Some(info)
        invariant i > 0 ==> wsConn == None && !heartbeatRun
        invariant botWs == old(botWs) && owner.members == old(owner.members)
        decreases |attempts| - i
      {
        var action, added := OnePass(conns, info, attempts[i], d);
        RunNext(attempts, i, delays, events, info, villaId, secret, botId, d, (added, action));
        BotInfoConcat(old(botInfo), events, added, d);
        AppendAssoc(old(tasks), events, added);
        events := events + added;
        if action == Stop {
          stopped := true;
          botWs := false;
          owner.members := owner.members - {this};
          return;
        }
        if action == SleepThenRetry {
          delays := delays + [5];
        }
        i := i + 1;
      }
    }

    /** `logout()`: with a socket and the connection info, sends the Logout
        package; otherwise does nothing. */
    method Logout(codec: ProtoCodec, writeOk: bool) returns (r: Outcome<SessionError>)
      requires wsConn.Some? ==> wsConn.value.Valid()
      modifies if wsConn.Some? then {wsConn.value} else {}
      ensures wsConn.Some? ==> wsConn.value.Valid()
      ensures wsConn.None? || wsInfo.None? ==> r == Pass
      ensures wsConn.Some? && wsInfo.Some? && Decimal.ParseInt(wsInfo.value.uid).None? ==> r == Fail(UidNotInteger)
      ensures wsConn.Some? && wsInfo.Some? && Decimal.ParseInt(wsInfo.value.uid).Some? ==>
        var pack := LogoutPackage(wsInfo.value);
        var frame := SendFrame(pack, old(wsConn.value.id), wsConn.value.appId, codec);
        (r.Pass? <==> frame.Success? && writeOk)
        && (r.Pass? ==> wsConn.value.written == old(wsConn.value.written) + [frame.value])
        && (r.Fail? ==> wsConn.value.written == old(wsConn.value.written))
    {
      if wsConn.None? || wsInfo.None? {
        return Pass;
      }
      var info := wsInfo.value;
      if Decimal.ParseInt(info.uid).None? {
        return Fail(UidNotInteger);
      }
      r := wsConn.value.Send(LogoutPackage(info), codec, writeOk);
    }

    /** One turn of `_heartbeat`: the loop ends once the flag is down; with
        no socket it spins without sending; otherwise it sends a HeartBeat
        stamped with the time in milliseconds and sleeps 20 seconds, or logs
        the exception and goes round again at once. */
    method HeartbeatTurn(nowMs: int, codec: ProtoCodec, writeOk: bool) returns (running: bool, delay: nat)
      requires wsConn.Some? ==> wsConn.value.Valid()
      modifies if wsConn.Some? then {wsConn.value} else {}
      ensures running == heartbeatRun
      ensures wsConn.Some? ==> wsConn.value.Valid()
      ensures !heartbeatRun || wsConn.None? ==> delay == 0
      ensures !heartbeatRun && wsConn.Some? ==> unchanged(wsConn.value)
      ensures wsConn.None? ==> delay == HeartbeatDelay(heartbeatRun, false, false)
      ensures heartbeatRun && wsConn.Some? ==>
        var frame := SendFrame(HeartBeat(StrVal(Decimal.IntToString(nowMs))), old(wsConn.value.id), wsConn.value.appId, codec);
        (delay == 20 <==> frame.Success? && writeOk)
        && (delay == 20 ==> wsConn.value.written == old(wsConn.value.written) + [frame.value])
        && (delay != 20 ==> delay == 0 && wsConn.value.written == old(wsConn.value.written))
    {
      if !heartbeatRun {
        return false, 0;
      }
      if wsConn.None? {
        return true, 0;
      }
      var sent := wsConn.value.Send(HeartBeat(StrVal(Decimal.IntToString(nowMs))), codec, writeOk);
      delay := if sent.Pass? then 20 else 0;
      running := true;
    }
  }

  /** How long one turn of `_heartbeat` waits before the next, as written:
      20 seconds after a heartbeat went out, and no time at all when there
      is no socket or the send raised; 0 also once the flag is down, when
      the loop ends. */
  function HeartbeatDelay(run: bool, connected: bool, sent: bool): (d: nat)
    ensures d > 0 <==> run && connected && sent
    ensures d > 0 ==> d == 20
  {
    if run && connected && sent then 20 else 0
  }

  /** As written, a running heartbeat without a socket goes round without
      awaiting anything. `connect` clears the socket and then awaits its
      5-second sleep with the flag still up, so the heartbeat task never
      yields and that sleep cannot end. */
  lemma HeartbeatSpinsWithoutSocket(sent: bool)
    ensures HeartbeatDelay(true, false, sent) == 0
  {
  }

  /** The evident intent: every turn of a running heartbeat sleeps its 20
      seconds, whether or not a heartbeat could be sent. */
  function HeartbeatDelayIntended(run: bool, connected: bool, sent: bool): (d: nat)
    ensures run ==> d == 20
    ensures !run ==> d == 0
  {
    if run then 20 else 0
  }

  /** The intended heartbeat always waits while it runs, and it waits
      exactly as the written one does whenever a heartbeat goes out. */
  lemma IntendedHeartbeatWaits(run: bool, connected: bool, sent: bool)
    ensures run ==> HeartbeatDelayIntended(run, connected, sent) > 0
    ensures run && connected && sent ==> HeartbeatDelayIntended(run, connected, sent) == HeartbeatDelay(run, connected, sent)
    ensures !run ==> HeartbeatDelayIntended(run, connected, sent) == HeartbeatDelay(run, connected, sent)
  {
  }

  /** The Logout package `logout` builds from the connection info. */
  function LogoutPackage(info: WsInfo): (p: Package)
    requires Decimal.ParseInt(info.uid).Some?
    ensures p.Logout? && p.uid == IntVal(Decimal.ParseInt(info.uid).value) && p.appId == IntVal(info.appId)
    ensures p.platform == IntVal(info.platform) && p.deviceId == StrVal(info.deviceId)
    ensures p.BizType() == WsTypes.PLogout
  {
    WsPackage.Logout(IntVal(Decimal.ParseInt(info.uid).value), IntVal(info.platform), IntVal(info.appId), StrVal(info.deviceId))
  }

  /** Dispatching two runs of events one after the other. */
  lemma {:induction false} BotInfoConcat(info: Option<ServerInternal.RobotTemplate>, a: seq<Events.ParsedEvent>,
                                         b: seq<Events.ParsedEvent>, d: Decoders)
    ensures BotInfoAfter(info, a + b, d) == BotInfoAfter(BotInfoAfter(info, a, d), b, d)
    decreases |b|
  {
    if b == [] {
      assert a + b == a;
    } else {
      var n := |b| - 1;
      assert (a + b)[..|a + b| - 1] == a + b[..n];
      BotInfoConcat(info, a, b[..n], d);
    }
  }
}
