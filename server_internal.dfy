/** The backend core of hertavilla/server/internal.py: the bot registry
    `_register_bots` fills and the response `_run_handles` chooses for a
    webhook call. The signature check, the JSON decoding of the body, the
    pydantic validation and the robot fields of the parsed event are
    parameters. */
module ServerInternal {
  import opened Wrappers
  import opened Json
  import opened Events

  /** `ResponseData(status_code, retcode, message)`. */
  datatype ResponseData = ResponseData(statusCode: int, retcode: int, message: string)

  const OK: ResponseData := ResponseData(200, 0, "")
  const INVALID_EVENT: ResponseData := ResponseData(400, -1, "event body is invalid")
  const VERIFY_FAILED: ResponseData := ResponseData(401, -2, "verify failed")
  const NO_BOT: ResponseData := ResponseData(404, 1, "no bot with this id")

  /** `event.robot.template`: the robot's id and name. */
  datatype RobotTemplate = RobotTemplate(id: string, name: string)

  /** A `VillaBot` as the backend sees it: its id, the endpoint it serves
      and its `bot_info`, None until the first event fills it in. */
  datatype Bot = Bot(botId: string, callbackEndpoint: string, info: Option<RobotTemplate>)

  /** What the webhook handler needs from outside: the signature check
      `bot.verify(sign, body)`, pydantic's validation, and the robot of a
      parsed event. */
  datatype Handlers = Handlers(
    verify: (Bot, string, string) -> bool,
    validate: (EventClass, map<string, Json>) -> Validation,
    robotOf: ParsedEvent -> RobotTemplate)

  /** The bots after registering `bs` into `m`, one dict store per bot. */
  function Registered(m: map<string, Bot>, bs: seq<Bot>): map<string, Bot>
    decreases |bs|
  {
    if bs == [] then m else Registered(m, bs[..|bs| - 1])[bs[|bs| - 1].botId := bs[|bs| - 1]]
  }

  /** The endpoints handed to the router callback, one per bot, in order. */
  function Endpoints(bs: seq<Bot>): (r: seq<string>)
    ensures |r| == |bs|
    ensures forall i :: 0 <= i < |bs| ==> r[i] == bs[i].callbackEndpoint
  {
    if bs == [] then [] else Endpoints(bs[..|bs| - 1]) + [bs[|bs| - 1].callbackEndpoint]
  }

  /** The ids of a run of bots. */
  function Ids(bs: seq<Bot>): (r: set<string>)
    ensures forall i :: 0 <= i < |bs| ==> bs[i].botId in r
    ensures forall id :: id in r ==> exists i :: 0 <= i < |bs| && bs[i].botId == id
  {
    if bs == [] then {} else Ids(bs[..|bs| - 1]) + {bs[|bs| - 1].botId}
  }

  /** After registration the ids are the old ones and those of the new
      bots. */
  lemma {:induction false} RegisteredIds(m: map<string, Bot>, bs: seq<Bot>)
    ensures Registered(m, bs).Keys == m.Keys + Ids(bs)
    decreases |bs|
  {
    if bs != [] {
      RegisteredIds(m, bs[..|bs| - 1]);
    }
  }

  /** An id no new bot has keeps its bot. */
  lemma {:induction false} RegisteredKeeps(m: map<string, Bot>, bs: seq<Bot>, id: string)
    requires id in m && id !in Ids(bs)
    ensures id in Registered(m, bs) && Registered(m, bs)[id] == m[id]
    decreases |bs|
  {
    if bs != [] {
      RegisteredKeeps(m, bs[..|bs| - 1], id);
    }
  }

  /** A later bot with the same id overwrites an earlier one: the bot
      stored under an id is the last one registered with it. */
  lemma {:induction false} RegisteredLast(m: map<string, Bot>, bs: seq<Bot>, k: nat)
    requires k < |bs|
    requires forall i :: k < i < |bs| ==> bs[i].botId != bs[k].botId
    ensures bs[k].botId in Registered(m, bs) && Registered(m, bs)[bs[k].botId] == bs[k]
    decreases |bs|
  {
    var n := |bs| - 1;
    if k < n {
      RegisteredLast(m, bs[..n], k);
    }
  }

  /** `if not (event_payload := payload.get("event"))`: a missing or falsy
      event. */
  predicate NoEvent(payload: map<string, Json>) {
    "event" !in payload || !Truthy(payload["event"])
  }

  /** `parse_event(event_payload)` on any truthy JSON value: subscripting
      a value that is not an object raises `TypeError`. */
  function ParsePayloadEvent(v: Json, h: Handlers): (r: Result<ParsedEvent, EventError>)
    ensures !v.JObj? ==> r == Failure(EventTypeError)
    ensures v.JObj? ==> r == ParseEvent(v.fields, h.validate)
  {
    if v.JObj? then ParseEvent(v.fields, h.validate) else Failure(EventTypeError)
  }

  /** The response `_run_handles` returns, or the exception that escapes
      it. A `ValueError` while parsing (pydantic's validation error) is an
      invalid event; every other parse failure propagates. */
  function Response(bots: map<string, Bot>, sign: Option<string>, body: string, payload: map<string, Json>, h: Handlers): (r: Result<ResponseData, EventError>)
    ensures NoEvent(payload) ==> r == Success(INVALID_EVENT)
    ensures (!NoEvent(payload) && ParsePayloadEvent(payload["event"], h).Failure?
             && IsValueError(ParsePayloadEvent(payload["event"], h).error)) ==> r == Success(INVALID_EVENT)
    ensures r.Failure? <==> !NoEvent(payload) && ParsePayloadEvent(payload["event"], h).Failure?
                            && !IsValueError(ParsePayloadEvent(payload["event"], h).error)
    ensures r.Failure? ==> r.error == ParsePayloadEvent(payload["event"], h).error
    ensures r == Success(OK) || r == Success(NO_BOT) || r == Success(VERIFY_FAILED) ==>
      !NoEvent(payload) && ParsePayloadEvent(payload["event"], h).Success?
  {
    if NoEvent(payload) then Success(INVALID_EVENT)
    else
      match ParsePayloadEvent(payload["event"], h)
      case Failure(e) => if IsValueError(e) then Success(INVALID_EVENT) else Failure(e)
      case Success(event) =>
        var id := h.robotOf(event).id;
        if id in bots then
          if sign.None? || !h.verify(bots[id], sign.value, body) then Success(VERIFY_FAILED)
          else Success(OK)
        else Success(NO_BOT)
  }

  /** For a parsed event: the response is decided by the robot id and the
      signature alone — no bot, a failed check, or acceptance. */
  lemma ResponseOfParsed(bots: map<string, Bot>, sign: Option<string>, body: string, payload: map<string, Json>, h: Handlers, event: ParsedEvent)
    requires !NoEvent(payload) && ParsePayloadEvent(payload["event"], h) == Success(event)
    ensures h.robotOf(event).id !in bots ==> Response(bots, sign, body, payload, h) == Success(NO_BOT)
    ensures var id := h.robotOf(event).id;
      id in bots && (sign.None? || !h.verify(bots[id], sign.value, body)) ==>
      Response(bots, sign, body, payload, h) == Success(VERIFY_FAILED)
    ensures Response(bots, sign, body, payload, h) == Success(OK) <==>
      var id := h.robotOf(event).id;
      id in bots && sign.Some? && h.verify(bots[id], sign.value, body)
  {
  }

  /** The webhook backend: its bots by id, and the dispatch tasks it has
      started (the module-level `background_tasks`), each a bot id and an
      event. */
  class Backend {
    var bots: map<string, Bot>
    var tasks: seq<(string, ParsedEvent)>

    constructor ()
      ensures bots == map[] && tasks == []
    {
      bots := map[];
      tasks := [];
    }

    /** `_register_bots(bots, add_router_callback)`: stores each bot under
        its id and calls the callback with its endpoint; the calls are
        returned in order. */
    method RegisterBots(bs: seq<Bot>) returns (calls: seq<string>)
      modifies this
      ensures bots == Registered(old(bots), bs) && tasks == old(tasks)
      ensures calls == Endpoints(bs)
    {
      calls := [];
      for i := 0 to |bs|
        invariant bots == Registered(old(bots), bs[..i]) && tasks == old(tasks)
        invariant calls == Endpoints(bs[..i])
      {
        assert bs[..i + 1][..i] == bs[..i];
        var bot := bs[i];
        bots := bots[bot.botId := bot];
        var endpoint := bot.callbackEndpoint;
        calls := calls + [endpoint];
      }
      assert bs[..|bs|] == bs;
    }

    /** `_run_handles(sign, body)` on the decoded body `payload`. An
        accepted event starts exactly one dispatch task and fills in the
        bot's info if it had none; every other outcome changes nothing. */
    method RunHandles(sign: Option<string>, body: string, payload: map<string, Json>, h: Handlers) returns (r: Result<ResponseData, EventError>)
      modifies this
      ensures r == Response(old(bots), sign, body, payload, h)
      ensures r != Success(OK) ==> bots == old(bots) && tasks == old(tasks)
      ensures r == Success(OK) ==>
        var event := ParsePayloadEvent(payload["event"], h).value;
        var id := h.robotOf(event).id;
        && id in old(bots)
        && tasks == old(tasks) + [(id, event)]
        && bots == old(bots)[id := if old(bots)[id].info.None? then old(bots)[id].(info := Some(h.robotOf(event))) else old(bots)[id]]
    {
      if "event" !in payload || !Truthy(payload["event"]) {
        return Success(INVALID_EVENT);
      }
      var eventPayload := payload["event"];
      var parsed := ParsePayloadEvent(eventPayload, h);
      if parsed.Failure? {
        if IsValueError(parsed.error) {
          return Success(INVALID_EVENT);
        }
        return Failure(parsed.error);
      }
      var event := parsed.value;
      var robot := h.robotOf(event);
      if robot.id in bots {
        var bot := bots[robot.id];
        if sign.None? || !h.verify(bot, sign.value, body) {
          return Success(VERIFY_FAILED);
        }
        if bot.info.None? {
          bot := bot.(info := Some(robot));
        }
        bots := bots[robot.id := bot];
        tasks := tasks + [(robot.id, event)];
        return Success(OK);
      }
      r := Success(NO_BOT);
    }
  }
}
