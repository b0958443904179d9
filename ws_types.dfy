/** The numeric codes of the persistent-connection protocol
    (hertavilla/ws/types.py): business types and frame directions. */
module WsTypes {
  import opened Wrappers

  /** BizType: what a frame's body carries. */
  datatype BizType =
    | Unknown | ExchangeKey | Heartbeat | Login | Logout
    | PExchangeKey | PHeartbeat | PLogin | PLogout
    | KickOff | Shutdown | PKickOff
    | RoomEnter | RoomLeave | RoomClose | RoomMsg
    | Event
  {
    /** The IntEnum value, shared with the server. */
    function Value(): int {
      match this
      case Unknown => 0
      case ExchangeKey => 1
      case Heartbeat => 2
      case Login => 3
      case Logout => 4
      case PExchangeKey => 5
      case PHeartbeat => 6
      case PLogin => 7
      case PLogout => 8
      case KickOff => 51
      case Shutdown => 52
      case PKickOff => 53
      case RoomEnter => 60
      case RoomLeave => 61
      case RoomClose => 62
      case RoomMsg => 63
      case Event => 30001
    }
  }

  /** The codes the session dispatches on, named as in the source. */
  const P_HEARTBEAT: int := 6
  const P_LOGIN: int := 7
  const P_LOGOUT: int := 8
  const SHUTDOWN: int := 52
  const P_KICK_OFF: int := 53
  const EVENT: int := 30001

  const BIZ_VALUES: set<int> := {0, 1, 2, 3, 4, 5, 6, 7, 8, 51, 52, 53, 60, 61, 62, 63, 30001}

  /** `BizType(v)`: the member with value v, or None where IntEnum raises. */
  function BizTypeOf(v: int): (r: Option<BizType>)
    ensures r.Some? <==> v in BIZ_VALUES
    ensures r.Some? ==> r.value.Value() == v
  {
    match v
    case 0 => Some(Unknown)
    case 1 => Some(ExchangeKey)
    case 2 => Some(Heartbeat)
    case 3 => Some(Login)
    case 4 => Some(Logout)
    case 5 => Some(PExchangeKey)
    case 6 => Some(PHeartbeat)
    case 7 => Some(PLogin)
    case 8 => Some(PLogout)
    case 51 => Some(KickOff)
    case 52 => Some(Shutdown)
    case 53 => Some(PKickOff)
    case 60 => Some(RoomEnter)
    case 61 => Some(RoomLeave)
    case 62 => Some(RoomClose)
    case 63 => Some(RoomMsg)
    case 30001 => Some(Event)
    case _ => None
  }

  /** Each value names exactly one member: looking a member's value up
      gives that member back, so no two members share a code. */
  lemma BizValuesDistinct(a: BizType, b: BizType)
    ensures BizTypeOf(a.Value()) == Some(a)
    ensures a.Value() == b.Value() ==> a == b
  {
  }

  /** The control and special codes have their protocol values, and the two
      special codes differ from every control code. */
  lemma ControlCodes()
    ensures PHeartbeat.Value() == P_HEARTBEAT == 6 && PLogin.Value() == P_LOGIN == 7
    ensures PLogout.Value() == P_LOGOUT == 8 && PKickOff.Value() == P_KICK_OFF == 53
    ensures Shutdown.Value() == SHUTDOWN == 52 && Event.Value() == EVENT == 30001
    ensures SHUTDOWN !in {P_HEARTBEAT, P_LOGIN, P_LOGOUT, P_KICK_OFF}
    ensures EVENT !in {P_HEARTBEAT, P_LOGIN, P_LOGOUT, P_KICK_OFF}
  {
  }

  /** FlagType: the direction of a frame. */
  datatype FlagType = Request | Response {
    function Value(): (r: int)
      ensures r == 1 <==> this == Request
      ensures r == 2 <==> this == Response
    {
      match this
      case Request => 1
      case Response => 2
    }
  }
}
