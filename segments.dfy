/** Message segments: the text entities of hertavilla/message/text.py, the
    image of hertavilla/message/image.py, the post and the component panel,
    with their `get_text` and `get_mention`, and the `entity_types`
    registry that `__init_subclass__` fills. */
module Segments {
  import opened Wrappers
  import Components
  import Decimal

  /** The `size` dict of an image. */
  datatype Size = Size(width: int, height: int)

  /** One segment of a message chain. */
  datatype Segment =
    | Text(text: string)
    | VillaRoomLink(villaId: string, roomId: string)
    | Link(url: string)
    | MentionedRobot(botId: string)
    | MentionedUser(userId: string, memberVillaId: int)
    | MentionedAll
    | Quote(messageId: string, time: int)
    | Image(url: string, size: Option<Size>, fileSize: Option<int>)
    | Post(postId: string)
    | Panel(panel: Components.Panel)

  /** The subclasses of `_TextEntity`. */
  predicate IsTextEntity(s: Segment) {
    !s.Image? && !s.Post? && !s.Panel?
  }

  /** `VillaRoomLink(villa_id, room_id)` stores both ids as `str(...)`. */
  function NewVillaRoomLink(villaId: int, roomId: int): (s: Segment)
    ensures s.VillaRoomLink?
    ensures Decimal.ParseInt(s.villaId) == Some(villaId) && Decimal.ParseInt(s.roomId) == Some(roomId)
  {
    Decimal.ParseIntToString(villaId);
    Decimal.ParseIntToString(roomId);
    VillaRoomLink(Decimal.IntToString(villaId), Decimal.IntToString(roomId))
  }

  /** What `get_text` needs from the bot: its own name and the two REST
      lookups (room name by villa and room id, member nickname by villa id
      and numeric user id), each None where the request raises. */
  datatype BotEnv = BotEnv(
    name: string,
    roomName: (string, string) -> Option<string>,
    memberNickname: (int, int) -> Option<string>)

  /** Why `get_text` raised: `NotImplementedError` (a quote, or the abstract
      method of a segment class that does not override it), the
      `ValueError` of `int(user_id)`, or a REST lookup that failed. */
  datatype SegmentError = NotImplemented | UserIdNotInteger | LookupFailed

  const ROOM_PREFIX: string := "#"
  const MENTION_PREFIX: string := "@"
  const MENTION_ALL_TEXT: string := "@全体成员"
  const IMAGE_TEXT: string := "[图片]"
  const PANEL_TEXT: string := "[Panel]"

  /** Whether the lookups behind `get_text` go through: the room of a room
      link is found, and a mentioned user's id is a decimal integer whose
      member is found. Every other segment needs no lookup. */
  predicate Fetched(s: Segment, env: BotEnv) {
    match s
    case VillaRoomLink(villa, room) => env.roomName(villa, room).Some?
    case MentionedUser(user, villa) =>
      Decimal.ParseInt(user).Some? && env.memberNickname(villa, Decimal.ParseInt(user).value).Some?
    case _ => true
  }

  /** `segment.get_text(bot)`. A quote raises. A post does not override the
      abstract method, so Python cannot even instantiate one; the model
      lets it raise here. A room link and a mentioned user
      raise when their lookup does, and a mentioned user first when its id
      is not an integer. */
  function GetText(s: Segment, env: BotEnv): (r: Result<string, SegmentError>)
    ensures r.Failure? <==> s.Quote? || s.Post? || !Fetched(s, env)
    ensures s.Quote? || s.Post? ==> r == Failure(NotImplemented)
    ensures s.MentionedUser? && Decimal.ParseInt(s.userId).None? ==> r == Failure(UserIdNotInteger)
    ensures s.Text? ==> r == Success(s.text)
    ensures s.Link? ==> r == Success(s.url)
    ensures s.VillaRoomLink? && Fetched(s, env) ==>
      r == Success(ROOM_PREFIX + env.roomName(s.villaId, s.roomId).value)
    ensures (s.MentionedRobot? || s.MentionedUser? || s.MentionedAll?) && Fetched(s, env) ==>
      r.Success? && |r.value| >= 1 && r.value[..1] == MENTION_PREFIX
  {
    match s
    case Text(t) => Success(t)
    case VillaRoomLink(villa, room) =>
      (match env.roomName(villa, room)
       case None => Failure(LookupFailed)
       case Some(name) => Success(ROOM_PREFIX + name))
    case Link(url) => Success(url)
    case MentionedRobot(_) => Success(MENTION_PREFIX + env.name)
    case MentionedUser(user, villa) =>
      (match Decimal.ParseInt(user)
       case None => Failure(UserIdNotInteger)
       case Some(uid) =>
         match env.memberNickname(villa, uid)
         case None => Failure(LookupFailed)
         case Some(nick) => Success(MENTION_PREFIX + nick))
    case MentionedAll => Success(MENTION_ALL_TEXT)
    case Quote(_, _) => Failure(NotImplemented)
    case Image(_, _, _) => Success(IMAGE_TEXT)
    case Post(_) => Failure(NotImplemented)
    case Panel(_) => Success(PANEL_TEXT)
  }

  /** A mention: kind 1 for everyone, kind 2 for one user or robot. */
  datatype Mention = Mention(kind: int, id: string)

  /** `get_mention`: everyone yields (1, ""), a robot or a user yields
      (2, id), every other text entity nothing. */
  function GetMention(s: Segment): (r: Option<Mention>)
    ensures r.Some? <==> s.MentionedAll? || s.MentionedRobot? || s.MentionedUser?
    ensures r.Some? ==> (r.value.kind == 1 <==> s.MentionedAll?) && (r.value.kind == 1 || r.value.kind == 2)
    ensures s.MentionedAll? ==> r == Some(Mention(1, ""))
    ensures s.MentionedRobot? ==> r == Some(Mention(2, s.botId))
    ensures s.MentionedUser? ==> r == Some(Mention(2, s.userId))
  {
    match s
    case MentionedRobot(bot) => Some(Mention(2, bot))
    case MentionedUser(user, _) => Some(Mention(2, user))
    case MentionedAll => Some(Mention(1, ""))
    case _ => None
  }

  // ---------------------------------------------------------------------
  // The entity_types registry
  // ---------------------------------------------------------------------

  /** The `_TextEntity` subclasses, by class. */
  datatype EntityClass =
    | TextClass | VillaRoomLinkClass | LinkClass | MentionedRobotClass
    | MentionedUserClass | MentionedAllClass | QuoteClass

  function ClassName(c: EntityClass): string {
    match c
    case TextClass => "Text"
    case VillaRoomLinkClass => "VillaRoomLink"
    case LinkClass => "Link"
    case MentionedRobotClass => "MentionedRobot"
    case MentionedUserClass => "MentionedUser"
    case MentionedAllClass => "MentionedAll"
    case QuoteClass => "Quote"
  }

  /** The names `__init_subclass__` skips. */
  const UNREGISTERED: set<string> := {"Text", "Quote"}

  /** The class attribute `type_`; Text and Quote declare none. */
  function TypeName(c: EntityClass): string
    requires ClassName(c) !in UNREGISTERED
  {
    match c
    case VillaRoomLinkClass => "villa_room_link"
    case LinkClass => "link"
    case MentionedRobotClass => "mentioned_robot"
    case MentionedUserClass => "mentioned_user"
    case MentionedAllClass => "mentioned_all"
  }

  /** The class statements in the order the module defines them. */
  const ENTITY_CLASSES: seq<EntityClass> := [
    TextClass, VillaRoomLinkClass, LinkClass, MentionedRobotClass,
    MentionedUserClass, MentionedAllClass, QuoteClass
  ]

  /** What one class statement does to `entity_types`. */
  function RegisterEntity(m: map<string, EntityClass>, c: EntityClass): map<string, EntityClass> {
    if ClassName(c) in UNREGISTERED then m else m[TypeName(c) := c]
  }

  function RegisterEntities(m: map<string, EntityClass>, cs: seq<EntityClass>): map<string, EntityClass>
    decreases |cs|
  {
    if cs == [] then m else RegisterEntities(RegisterEntity(m, cs[0]), cs[1..])
  }

  /** `entity_types` once the module has been imported. */
  const ENTITY_TYPES: map<string, EntityClass> := map[
    "villa_room_link" := VillaRoomLinkClass, "link" := LinkClass,
    "mentioned_robot" := MentionedRobotClass, "mentioned_user" := MentionedUserClass,
    "mentioned_all" := MentionedAllClass]

  /** Every subclass except Text and Quote is registered under its own
      `type_`, and nothing else is. */
  lemma {:induction false} EntityTypesRegistered()
    ensures RegisterEntities(map[], ENTITY_CLASSES) == ENTITY_TYPES
    ensures forall t :: t in ENTITY_TYPES ==> ClassName(ENTITY_TYPES[t]) !in UNREGISTERED && TypeName(ENTITY_TYPES[t]) == t
    ensures forall t :: t in ENTITY_TYPES ==> ENTITY_TYPES[t] != TextClass && ENTITY_TYPES[t] != QuoteClass
  {
    var m1 := map["villa_room_link" := VillaRoomLinkClass];
    var m2 := m1["link" := LinkClass];
    var m3 := m2["mentioned_robot" := MentionedRobotClass];
    var m4 := m3["mentioned_user" := MentionedUserClass];
    assert RegisterEntities(ENTITY_TYPES, ENTITY_CLASSES[7..]) == ENTITY_TYPES;
    assert RegisterEntities(ENTITY_TYPES, ENTITY_CLASSES[6..]) == ENTITY_TYPES;
    assert RegisterEntities(m4, ENTITY_CLASSES[5..]) == ENTITY_TYPES;
    assert RegisterEntities(m3, ENTITY_CLASSES[4..]) == ENTITY_TYPES;
    assert RegisterEntities(m2, ENTITY_CLASSES[3..]) == ENTITY_TYPES;
    assert RegisterEntities(m1, ENTITY_CLASSES[2..]) == ENTITY_TYPES;
    assert RegisterEntities(map[], ENTITY_CLASSES[1..]) == ENTITY_TYPES;
  }

  /** The class of a text-entity segment. */
  function ClassOf(s: Segment): EntityClass
    requires IsTextEntity(s)
  {
    match s
    case Text(_) => TextClass
    case VillaRoomLink(_, _) => VillaRoomLinkClass
    case Link(_) => LinkClass
    case MentionedRobot(_) => MentionedRobotClass
    case MentionedUser(_, _) => MentionedUserClass
    case MentionedAll => MentionedAllClass
    case Quote(_, _) => QuoteClass
  }
}
