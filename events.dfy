/** Webhook events (hertavilla/event.py): the `events` registry that
    `Event.__init_subclass__` fills, `parse_event`, and the `parse_content`
    validator that turns a message's text and entity records back into a
    message chain. */
module Events {
  import opened Wrappers
  import opened Json
  import opened Segments
  import opened Bytes
  import opened Utf16
  import Decimal
  import TextContent

  // ---------------------------------------------------------------------
  // The events registry
  // ---------------------------------------------------------------------

  /** The `Event` subclasses. */
  datatype EventClass = JoinVillaEvent | SendMessageEvent

  function EventClassName(c: EventClass): string {
    match c
    case JoinVillaEvent => "JoinVillaEvent"
    case SendMessageEvent => "SendMessageEvent"
  }

  /** The argument of the subclass's `type: Literal[...]` annotation. */
  function LiteralType(c: EventClass): int {
    match c
    case JoinVillaEvent => 1
    case SendMessageEvent => 2
  }

  /** Python's `s.replace(pat, rep)`: every occurrence, left to right,
      without overlaps. */
  function Replace(s: string, pat: string, rep: string): (r: string)
    requires |pat| > 0
    ensures rep == "" ==> |r| <= |s|
    decreases |s|
  {
    if |s| < |pat| then s
    else if s[..|pat|] == pat then rep + Replace(s[|pat|..], pat, rep)
    else [s[0]] + Replace(s[1..], pat, rep)
  }

  /** A prefix none of whose characters starts the pattern is kept as it
      is. */
  lemma {:induction false} ReplaceKeepsPrefix(a: string, b: string, pat: string, rep: string)
    requires |pat| > 0
    requires forall i :: 0 <= i < |a| ==> a[i] != pat[0]
    ensures Replace(a + b, pat, rep) == a + Replace(b, pat, rep)
    decreases |a|
  {
    if a == [] {
      assert a + b == b;
    } else {
      var s := a + b;
      assert s[1..] == a[1..] + b;
      ReplaceKeepsPrefix(a[1..], b, pat, rep);
      if |s| >= |pat| {
        assert s[..|pat|][0] == a[0];
        assert s[..|pat|] != pat;
        assert Replace(s, pat, rep) == [a[0]] + Replace(a[1..] + b, pat, rep);
        assert [a[0]] + (a[1..] + Replace(b, pat, rep)) == a + Replace(b, pat, rep);
      } else {
        assert Replace(b, pat, rep) == b;
      }
    }
  }

  /** Removing a class name's "Event" suffix. */
  lemma StripSuffix(a: string, pat: string)
    requires |pat| > 0
    requires forall i :: 0 <= i < |a| ==> a[i] != pat[0]
    ensures Replace(a + pat, pat, "") == a
  {
    ReplaceKeepsPrefix(a, pat, pat, "");
    assert pat[|pat|..] == "";
  }

  /** What one class statement does to `events`. */
  function RegisterEvent(m: map<int, (EventClass, string)>, c: EventClass): map<int, (EventClass, string)> {
    m[LiteralType(c) := (c, Replace(EventClassName(c), "Event", ""))]
  }

  /** The class statements in the order the module defines them. */
  const EVENT_CLASSES: seq<EventClass> := [JoinVillaEvent, SendMessageEvent]

  function RegisterEvents(m: map<int, (EventClass, string)>, cs: seq<EventClass>): map<int, (EventClass, string)>
    decreases |cs|
  {
    if cs == [] then m else RegisterEvents(RegisterEvent(m, cs[0]), cs[1..])
  }

  /** `events` once the module has been imported. */
  const EVENTS: map<int, (EventClass, string)> := map[
    1 := (JoinVillaEvent, "JoinVilla"),
    2 := (SendMessageEvent, "SendMessage")]

  /** Each subclass is registered under its literal type with its class
      name minus "Event". */
  lemma EventsRegistered()
    ensures RegisterEvents(map[], EVENT_CLASSES) == EVENTS
    ensures forall t :: t in EVENTS ==> LiteralType(EVENTS[t].0) == t
  {
    assert "JoinVillaEvent" == "JoinVilla" + "Event";
    assert "SendMessageEvent" == "SendMessage" + "Event";
    StripSuffix("JoinVilla", "Event");
    StripSuffix("SendMessage", "Event");
    var m1 := map[1 := (JoinVillaEvent, "JoinVilla")];
    assert RegisterEvents(EVENTS, EVENT_CLASSES[2..]) == EVENTS;
    assert RegisterEvents(m1, EVENT_CLASSES[1..]) == EVENTS;
  }

  // ---------------------------------------------------------------------
  // parse_event
  // ---------------------------------------------------------------------

  /** What escapes `parse_event`: a lookup failure, a type error from
      indexing or merging, the `ValidationError` (a `ValueError`) of the
      pydantic model, an `AttributeError` a validator raised, or a value the
      model does not interpret. */
  datatype EventError = EventKeyError | EventTypeError | EventValidationError | EventValueError | EventAttributeError | EventUnmodelled

  /** The failures that are a `ValueError` in Python: pydantic's
      `ValidationError`, and the one `dict.update` raises for a sequence
      element that is not a pair. */
  predicate IsValueError(e: EventError) {
    e == EventValidationError || e == EventValueError
  }

  /** What pydantic's `parse_obj` does with the merged payload. A `KeyError`
      raised inside a validator (such as `parse_content`'s) is not
      converted into a validation error, and neither is an `AttributeError`. */
  datatype Validation = Valid | Invalid | ValidatorKeyError | ValidatorAttributeError

  /** The event model `parse_obj` builds: its class and its fields. */
  datatype ParsedEvent = ParsedEvent(cls: EventClass, fields: map<string, Json>)

  /** `events[key]` for a JSON value used as a dict key: True and False
      hash as 1 and 0, a list or object is unhashable. */
  function EventLookup(key: Json): (r: Result<(EventClass, string), EventError>)
    ensures key.JInt? ==> (r.Success? <==> key.i in EVENTS)
    ensures key.JStr? || key.JNull? ==> r == Failure(EventKeyError)
    ensures r.Success? ==> r.value in EVENTS.Values
  {
    match key
    case JInt(i) => if i in EVENTS then Success(EVENTS[i]) else Failure(EventKeyError)
    case JBool(b) => var i := if b then 1 else 0; if i in EVENTS then Success(EVENTS[i]) else Failure(EventKeyError)
    case JList(_) => Failure(EventTypeError)
    case JObj(_) => Failure(EventTypeError)
    case _ => Failure(EventKeyError)
  }

  /** `v[key]` on a JSON value: a missing key of an object is a `KeyError`,
      indexing anything else by a string a `TypeError`. */
  function Subscript(v: Json, key: string): (r: Result<Json, EventError>)
    ensures r.Success? <==> v.JObj? && key in v.fields
    ensures r.Success? ==> r.value == v.fields[key]
    ensures v.JObj? && key !in v.fields ==> r == Failure(EventKeyError)
  {
    if !v.JObj? then Failure(EventTypeError)
    else if key !in v.fields then Failure(EventKeyError)
    else Success(v.fields[key])
  }

  /** One element of the iterable `dict.update` is given: a two-element
      list or a two-character string is a (key, value) pair, and any other
      length is a `ValueError`; a number, boolean or None is no sequence
      and an unhashable key fails hashing, both a `TypeError`. A pair
      whose key is not a string, and a two-key object (whose keys would be
      the pair, in an order the decoded JSON does not keep), are not
      interpreted. */
  function UpdatePair(e: Json): (r: Result<(string, Json), EventError>)
    ensures e.JList? && |e.items| == 2 && e.items[0].JStr? ==> r == Success((e.items[0].s, e.items[1]))
    ensures (e.JList? && |e.items| != 2) || (e.JStr? && |e.s| != 2) || (e.JObj? && |e.fields| != 2) ==> r == Failure(EventValueError)
    ensures e.JInt? || e.JBool? || e.JNull? ==> r == Failure(EventTypeError)
  {
    match e
    case JList(items) =>
      if |items| != 2 then Failure(EventValueError)
      else if items[0].JList? || items[0].JObj? then Failure(EventTypeError)
      else if !items[0].JStr? then Failure(EventUnmodelled)
      else Success((items[0].s, items[1]))
    case JStr(s) => if |s| != 2 then Failure(EventValueError) else Success(([s[0]], JStr([s[1]])))
    case JObj(fields) => if |fields| != 2 then Failure(EventValueError) else Failure(EventUnmodelled)
    case _ => Failure(EventTypeError)
  }

  /** The keys of the elements that are pairs. */
  function PairKeys(items: seq<Json>): (keys: set<string>)
    ensures forall i :: 0 <= i < |items| && UpdatePair(items[i]).Success? ==> UpdatePair(items[i]).value.0 in keys
    decreases |items|
  {
    if items == [] then {}
    else (if UpdatePair(items[0]).Success? then {UpdatePair(items[0]).value.0} else {}) + PairKeys(items[1..])
  }

  /** `acc |= items` for a list: the pairs in order, a later key
      overwriting an earlier one, and the first element that is not a pair
      raising its error. */
  function UpdateFrom(acc: map<string, Json>, items: seq<Json>): (r: Result<map<string, Json>, EventError>)
    ensures r.Success? <==> forall i :: 0 <= i < |items| ==> UpdatePair(items[i]).Success?
    ensures r.Failure? ==> exists i ::
      && 0 <= i < |items|
      && UpdatePair(items[i]) == Failure(r.error)
      && forall j :: 0 <= j < i ==> UpdatePair(items[j]).Success?
    ensures r.Success? ==> r.value.Keys == acc.Keys + PairKeys(items)
    ensures r.Success? ==> forall k :: k in acc && k !in PairKeys(items) ==> r.value[k] == acc[k]
    ensures r.Success? ==> forall i ::
      (0 <= i < |items| && UpdatePair(items[i]).Success? && UpdatePair(items[i]).value.0 !in PairKeys(items[i + 1..])) ==>
        r.value[UpdatePair(items[i]).value.0] == UpdatePair(items[i]).value.1
    decreases |items|
  {
    if items == [] then Success(acc)
    else
      match UpdatePair(items[0])
      case Failure(e) => Failure(e)
      case Success((k, v)) =>
        var rest := items[1..];
        var r := UpdateFrom(acc[k := v], rest);
        assert forall i :: 0 < i < |items| ==> items[i] == rest[i - 1];
        if r.Failure? then
          var i :| 0 <= i < |rest| && UpdatePair(rest[i]) == Failure(r.error)
            && forall j :: 0 <= j < i ==> UpdatePair(rest[j]).Success?;
          assert UpdatePair(items[i + 1]) == Failure(r.error);
          r
        else
          assert items[0 + 1..] == rest;
          forall i | 0 < i < |items|
            ensures items[i + 1..] == rest[i..]
          {
          }
          r
  }

  /** `payload.pop("extend_data"); payload |= data`: an object's keys are
      added, a list is read as pairs, and a string is iterated as
      one-character elements, none of them a pair, so only the empty string
      adds nothing and any other raises `ValueError`. */
  function Merge(payload: map<string, Json>, data: Json): (r: Result<map<string, Json>, EventError>)
    ensures r.Success? <==> (data.JObj? || data == JStr("") ||
      (data.JList? && forall i :: 0 <= i < |data.items| ==> UpdatePair(data.items[i]).Success?))
    ensures data == JStr("") ==> r == Success(payload - {"extend_data"})
    ensures data.JStr? && data.s != "" ==> r == Failure(EventValueError)
    ensures data.JList? ==> r == UpdateFrom(payload - {"extend_data"}, data.items)
    ensures data.JObj? && r.Success? ==> r.value.Keys == (payload.Keys - {"extend_data"}) + data.fields.Keys
    ensures data.JObj? && r.Success? ==> forall k :: k in data.fields ==> r.value[k] == data.fields[k]
    ensures data.JObj? && r.Success? ==> forall k :: k in payload && k != "extend_data" && k !in data.fields ==> r.value[k] == payload[k]
  {
    match data
    case JObj(fields) => Success((payload - {"extend_data"}) + fields)
    case JStr(s) => if s == "" then Success(payload - {"extend_data"}) else Failure(EventValueError)
    case JList(items) => UpdateFrom(payload - {"extend_data"}, items)
    case _ => Failure(EventTypeError)
  }

  /** `parse_event(payload)`. */
  function ParseEvent(payload: map<string, Json>, validate: (EventClass, map<string, Json>) -> Validation): (r: Result<ParsedEvent, EventError>)
    ensures "type" !in payload ==> r == Failure(EventKeyError)
    ensures "type" in payload && payload["type"].JInt? && payload["type"].i !in EVENTS ==> r == Failure(EventKeyError)
    ensures r.Success? ==> "type" in payload && EventLookup(payload["type"]).Success?
    ensures r.Success? ==> r.value.cls == EventLookup(payload["type"]).value.0
  {
    if "type" !in payload then Failure(EventKeyError)
    else
      match EventLookup(payload["type"])
      case Failure(e) => Failure(e)
      case Success(entry) =>
        var (cls, name) := entry;
        if "extend_data" !in payload then Failure(EventKeyError)
        else
          match Subscript(payload["extend_data"], "EventData")
          case Failure(e) => Failure(e)
          case Success(eventData) =>
            match Subscript(eventData, name)
            case Failure(e) => Failure(e)
            case Success(data) =>
              match Merge(payload, data)
              case Failure(e) => Failure(e)
              case Success(merged) =>
                match validate(cls, merged)
                case Valid => Success(ParsedEvent(cls, merged))
                case Invalid => Failure(EventValidationError)
                case ValidatorKeyError => Failure(EventKeyError)
                case ValidatorAttributeError => Failure(EventAttributeError)
  }

  /** A well-formed payload is parsed as the class its type names, from
      the payload without `extend_data` merged with the event's own data,
      whose keys win. */
  lemma ParseEventMerges(payload: map<string, Json>, validate: (EventClass, map<string, Json>) -> Validation, t: int, data: map<string, Json>)
    requires t in EVENTS && "type" in payload && payload["type"] == JInt(t)
    requires "extend_data" in payload && payload["extend_data"].JObj?
    requires "EventData" in payload["extend_data"].fields
    requires var ed := payload["extend_data"].fields["EventData"];
      ed.JObj? && EVENTS[t].1 in ed.fields && ed.fields[EVENTS[t].1] == JObj(data)
    requires validate(EVENTS[t].0, (payload - {"extend_data"}) + data) == Valid
    ensures ParseEvent(payload, validate) == Success(ParsedEvent(EVENTS[t].0, (payload - {"extend_data"}) + data))
    ensures "type" !in data ==> ParseEvent(payload, validate).value.fields["type"] == JInt(t)
  {
  }

  /** A well-formed payload whose validation fails with what
      `parse_content` raised: a `KeyError` or `AttributeError` escapes
      `parse_event` as it is, and any other error arrives as the
      `ValidationError`, the one a caller treats as a `ValueError`. */
  lemma ContentErrorEscapes(payload: map<string, Json>, validate: (EventClass, map<string, Json>) -> Validation, t: int,
                            data: map<string, Json>, e: ContentError)
    requires t in EVENTS && "type" in payload && payload["type"] == JInt(t)
    requires "extend_data" in payload && payload["extend_data"].JObj?
    requires "EventData" in payload["extend_data"].fields
    requires var ed := payload["extend_data"].fields["EventData"];
      ed.JObj? && EVENTS[t].1 in ed.fields && ed.fields[EVENTS[t].1] == JObj(data)
    requires validate(EVENTS[t].0, (payload - {"extend_data"}) + data) == ContentValidation(e)
    ensures ParseEvent(payload, validate).Failure?
    ensures ParseEvent(payload, validate).error == match e
      case ContentKeyError => EventKeyError
      case ContentAttributeError => EventAttributeError
      case _ => EventValidationError
    ensures IsValueError(ParseEvent(payload, validate).error) <==> e != ContentKeyError && e != ContentAttributeError
  {
  }

  /** `True` is hashed as 1, so a type of `true` reads as a JoinVilla
      event. */
  lemma BoolTypeIsJoinVilla()
    ensures EventLookup(JBool(true)) == Success((JoinVillaEvent, "JoinVilla"))
    ensures EventLookup(JBool(false)) == Failure(EventKeyError)
  {
  }

  // ---------------------------------------------------------------------
  // parse_content
  // ---------------------------------------------------------------------

  /** What `parse_content` raises: `KeyError` (a missing key, no "type",
      or a type `entity_types` lacks), `TypeError` (indexing or iterating
      something that is not a dict or list, arithmetic on a value that is
      no number, arguments the entity's constructor does not take, or an
      unhashable type), `AttributeError` (`encode` on a text that is not a
      string, `pop` on a body that is neither a dict nor a list), the
      `UnicodeDecodeError` of a slice that is not UTF-16, or a value the
      model's segments do not hold. */
  datatype ContentError = ContentKeyError | ContentTypeError | ContentAttributeError | ContentDecodeError | ContentUnmodelled

  /** Inside the pydantic validator a `TypeError` or `ValueError` (a
      `UnicodeDecodeError` is one) becomes a `ValidationError`; a `KeyError`
      or an `AttributeError` escapes as it is. */
  function ContentValidation(e: ContentError): (v: Validation)
    ensures v == ValidatorKeyError <==> e == ContentKeyError
    ensures v == ValidatorAttributeError <==> e == ContentAttributeError
    ensures v == Invalid <==> e == ContentTypeError || e == ContentDecodeError || e == ContentUnmodelled
  {
    match e
    case ContentKeyError => ValidatorKeyError
    case ContentAttributeError => ValidatorAttributeError
    case _ => Invalid
  }

  /** `str(v)` for a JSON value; the repr of a list or object is not
      modelled. */
  function PyStr(v: Json): (r: Option<string>)
    ensures v.JStr? ==> r == Some(v.s)
    ensures v.JInt? ==> r.Some? && Decimal.ParseInt(r.value) == Some(v.i)
    ensures r.None? <==> v.JList? || v.JObj?
  {
    match v
    case JStr(s) => Some(s)
    case JInt(i) => Decimal.ParseIntToString(i); Some(Decimal.IntToString(i))
    case JBool(b) => Some(if b then "True" else "False")
    case JNull => Some("None")
    case _ => None
  }

  /** Whether keyword arguments `keys` bind to a signature with these
      required and optional parameters. */
  predicate Binds(keys: set<string>, required: set<string>, optional: set<string>) {
    required <= keys && keys <= required + optional
  }

  /** `cls(**body)` for a registered entity class. */
  function Construct(cls: EntityClass, body: map<string, Json>): (r: Result<Segment, ContentError>)
    requires cls != TextClass && cls != QuoteClass
    ensures r.Success? ==> IsTextEntity(r.value) && !r.value.Text? && !r.value.Quote? && ClassOf(r.value) == cls
    ensures cls == MentionedAllClass ==> r == Success(MentionedAll)
    ensures cls == LinkClass ==> (r.Success? <==> body.Keys == {"url"} && body["url"].JStr?)
    ensures cls == MentionedRobotClass ==> (r.Success? <==> body.Keys == {"bot_id"} && body["bot_id"].JStr?)
    ensures cls == VillaRoomLinkClass && body.Keys != {"villa_id", "room_id"} ==> r == Failure(ContentTypeError)
    ensures cls == MentionedUserClass && !Binds(body.Keys, {"user_id"}, {"_villa_id"}) ==> r == Failure(ContentTypeError)
  {
    match cls
    case VillaRoomLinkClass =>
      if !Binds(body.Keys, {"villa_id", "room_id"}, {}) then Failure(ContentTypeError)
      else
        var villa, room := PyStr(body["villa_id"]), PyStr(body["room_id"]);
        if villa.None? || room.None? then Failure(ContentUnmodelled)
        else Success(VillaRoomLink(villa.value, room.value))
    case LinkClass =>
      if !Binds(body.Keys, {"url"}, {}) then Failure(ContentTypeError)
      else if !body["url"].JStr? then Failure(ContentUnmodelled)
      else Success(Link(body["url"].s))
    case MentionedRobotClass =>
      if !Binds(body.Keys, {"bot_id"}, {}) then Failure(ContentTypeError)
      else if !body["bot_id"].JStr? then Failure(ContentUnmodelled)
      else Success(MentionedRobot(body["bot_id"].s))
    case MentionedUserClass =>
      if !Binds(body.Keys, {"user_id"}, {"_villa_id"}) then Failure(ContentTypeError)
      else
        var villa := if "_villa_id" in body then body["_villa_id"] else JInt(0);
        if !body["user_id"].JStr? || !villa.JInt? then Failure(ContentUnmodelled)
        else Success(MentionedUser(body["user_id"].s, villa.i))
    case MentionedAllClass =>
      Success(MentionedAll)
  }

  /** `entity_types[type_](**body)`. */
  function EntityOf(type_: Json, body: map<string, Json>): (r: Result<Segment, ContentError>)
    ensures type_.JStr? && type_.s !in ENTITY_TYPES ==> r == Failure(ContentKeyError)
    ensures r.Success? ==> type_.JStr? && type_.s in ENTITY_TYPES && r == Construct(ENTITY_TYPES[type_.s], body)
  {
    EntityTypesRegistered();
    match type_
    case JStr(t) => if t in ENTITY_TYPES then Construct(ENTITY_TYPES[t], body) else Failure(ContentKeyError)
    case JList(_) => Failure(ContentTypeError)
    case JObj(_) => Failure(ContentTypeError)
    case _ => Failure(ContentKeyError)
  }

  /** What the source does after a gap of text before an entity: only the
      gap text is appended (as written), or the gap text and then the
      entity (as evidently intended). */
  datatype GapRule = DropEntity | KeepEntity

  /** `text[_rc(start):_rc(stop)].decode("utf-16")`. */
  function GapText(data: seq<byte>, start: int, stop: int): Result<Segment, ContentError> {
    match Decode(PySlice(data, Rc(start), Rc(stop)))
    case None => Failure(ContentDecodeError)
    case Some(t) => Success(Text(t))
  }

  /** The segments one entity record appends to the chain, given the end
      of the previous one. */
  function EntityStep(data: seq<byte>, rec: TextContent.EntityRecord, end: int, rule: GapRule): Result<seq<Segment>, ContentError> {
    if "type" !in rec.entity then Failure(ContentKeyError)
    else
      var type_ := rec.entity["type"];
      var body := rec.entity - {"type"};
      if rec.offset != end then
        match GapText(data, end, rec.offset)
        case Failure(e) => Failure(e)
        case Success(gap) =>
          if rule == DropEntity then Success([gap])
          else
            match EntityOf(type_, body)
            case Failure(e) => Failure(e)
            case Success(entity) => Success([gap, entity])
      else
        match EntityOf(type_, body)
        case Failure(e) => Failure(e)
        case Success(entity) => Success([entity])
  }

  /** An entity record without "type" fails; one at the previous end
      appends its entity; one after a gap appends the gap's text and then,
      only under the intended rule, the entity. */
  lemma EntityStepRules(data: seq<byte>, rec: TextContent.EntityRecord, end: int, rule: GapRule)
    ensures var r := EntityStep(data, rec, end, rule);
      && ("type" !in rec.entity ==> r == Failure(ContentKeyError))
      && (r.Success? ==> "type" in rec.entity)
      && (r.Success? && rec.offset == end ==>
            |r.value| == 1 && EntityOf(rec.entity["type"], rec.entity - {"type"}) == Success(r.value[0]))
      && (r.Success? && rec.offset != end ==>
            && |r.value| == (if rule == DropEntity then 1 else 2)
            && Success(r.value[0]) == GapText(data, end, rec.offset))
      && (rule == KeepEntity && r.Success? ==>
            EntityOf(rec.entity["type"], rec.entity - {"type"}) == Success(r.value[|r.value| - 1]))
  {
  }

  /** The text after the last entity, if its byte position is not the end. */
  function Trailing(data: seq<byte>, end: int): Result<seq<Segment>, ContentError> {
    if Rc(end) != |data| then
      match Decode(PySliceFrom(data, Rc(end)))
      case None => Failure(ContentDecodeError)
      case Some(t) => Success([Text(t)])
    else Success([])
  }

  /** The remaining iterations from record j, with the chain built so far. */
  function ParseFrom(data: seq<byte>, recs: seq<TextContent.EntityRecord>, j: nat, end: int, chain: seq<Segment>, rule: GapRule): Result<seq<Segment>, ContentError>
    requires j <= |recs|
    decreases |recs| - j
  {
    if j == |recs| then
      match Trailing(data, end)
      case Failure(e) => Failure(e)
      case Success(tail) => Success(chain + tail)
    else
      match EntityStep(data, recs[j], end, rule)
      case Failure(e) => Failure(e)
      case Success(segs) => ParseFrom(data, recs, j + 1, recs[j].offset + recs[j].length, chain + segs, rule)
  }

  /** One iteration of `ParseFrom`. */
  lemma ParseFromStep(data: seq<byte>, recs: seq<TextContent.EntityRecord>, j: nat, end: int, chain: seq<Segment>, rule: GapRule,
                      step: Result<seq<Segment>, ContentError>)
    requires j < |recs| && step == EntityStep(data, recs[j], end, rule)
    ensures step.Failure? ==> ParseFrom(data, recs, j, end, chain, rule) == Failure(step.error)
    ensures step.Success? ==>
      ParseFrom(data, recs, j, end, chain, rule) == ParseFrom(data, recs, j + 1, recs[j].offset + recs[j].length, chain + step.value, rule)
  {
  }

  /** The end of `ParseFrom`. */
  lemma ParseFromEnd(data: seq<byte>, recs: seq<TextContent.EntityRecord>, end: int, chain: seq<Segment>, rule: GapRule)
    ensures Trailing(data, end).Failure? ==> ParseFrom(data, recs, |recs|, end, chain, rule) == Failure(Trailing(data, end).error)
    ensures Trailing(data, end).Success? ==> ParseFrom(data, recs, |recs|, end, chain, rule) == Success(chain + Trailing(data, end).value)
  {
  }

  /** Python `int` arithmetic on a JSON value: an integer, or a boolean as
      0 or 1; `_rc` or `+` on anything else raises `TypeError`. */
  function PyInt(j: Json): (r: Option<int>)
    ensures j.JInt? ==> r == Some(j.i)
    ensures r.Some? <==> j.JInt? || j.JBool?
  {
    match j
    case JInt(i) => Some(i)
    case JBool(b) => Some(if b then 1 else 0)
    case _ => None
  }

  /** One iteration of `parse_content`'s loop on a decoded entity `e`, with
      the end offset after it. It reads "offset" and "entity", pops "type"
      from the body, appends what the entity stands for, and only then reads
      "length". A value that is no number is never equal to the integer end
      offset, so it reaches `_rc` and raises there. `EntityStep` does not
      read the record's length, which is not known yet. */
  function RawStep(data: seq<byte>, e: Json, end: int, rule: GapRule): (r: Result<(seq<Segment>, int), ContentError>)
    ensures !e.JObj? ==> r == Failure(ContentTypeError)
    ensures e.JObj? && ("offset" !in e.fields || "entity" !in e.fields) ==> r == Failure(ContentKeyError)
    ensures e.JObj? && "offset" in e.fields && "entity" in e.fields ==>
      var body := e.fields["entity"];
      && (body.JList? ==> r == Failure(ContentTypeError))
      && (!body.JList? && !body.JObj? ==> r == Failure(ContentAttributeError))
      && (body.JObj? && "type" !in body.fields ==> r == Failure(ContentKeyError))
      && (body.JObj? && "type" in body.fields && PyInt(e.fields["offset"]).None? ==> r == Failure(ContentTypeError))
    ensures r.Success? ==>
      && e.JObj? && "entity" in e.fields && e.fields["entity"].JObj?
      && "offset" in e.fields && PyInt(e.fields["offset"]).Some?
      && "length" in e.fields && PyInt(e.fields["length"]).Some?
      && r.value.1 == PyInt(e.fields["offset"]).value + PyInt(e.fields["length"]).value
      && EntityStep(data, TextContent.EntityRecord(e.fields["entity"].fields, 0, PyInt(e.fields["offset"]).value), end, rule)
         == Success(r.value.0)
  {
    if !e.JObj? then Failure(ContentTypeError)
    else if "offset" !in e.fields || "entity" !in e.fields then Failure(ContentKeyError)
    else
      var body := e.fields["entity"];
      if body.JList? then Failure(ContentTypeError)
      else if !body.JObj? then Failure(ContentAttributeError)
      else if "type" !in body.fields then Failure(ContentKeyError)
      else
        match PyInt(e.fields["offset"])
        case None => Failure(ContentTypeError)
        case Some(offset) =>
          match EntityStep(data, TextContent.EntityRecord(body.fields, 0, offset), end, rule)
          case Failure(err) => Failure(err)
          case Success(segs) =>
            if "length" !in e.fields then Failure(ContentKeyError)
            else
              match PyInt(e.fields["length"])
              case None => Failure(ContentTypeError)
              case Some(length) => Success((segs, offset + length))
  }

  /** The remaining iterations over decoded entities from j. */
  function RawFrom(data: seq<byte>, items: seq<Json>, j: nat, end: int, chain: seq<Segment>, rule: GapRule): Result<seq<Segment>, ContentError>
    requires j <= |items|
    decreases |items| - j
  {
    if j == |items| then
      match Trailing(data, end)
      case Failure(e) => Failure(e)
      case Success(tail) => Success(chain + tail)
    else
      match RawStep(data, items[j], end, rule)
      case Failure(e) => Failure(e)
      case Success(step) => RawFrom(data, items, j + 1, step.1, chain + step.0, rule)
  }

  /** `for entity in entities`: a list gives its items, an empty string or
      object gives none; a non-empty string or object yields strings, which
      the first `entity["offset"]` rejects with `TypeError`; a number,
      boolean or None is not iterable, also a `TypeError`. */
  function Iterated(v: Json): (r: Result<seq<Json>, ContentError>)
    ensures v.JList? ==> r == Success(v.items)
    ensures r.Failure? ==> r.error == ContentTypeError
    ensures r.Success? && !v.JList? ==> r.value == []
  {
    match v
    case JList(items) => Success(items)
    case JStr(t) => if t == "" then Success([]) else Failure(ContentTypeError)
    case JObj(f) => if f == map[] then Success([]) else Failure(ContentTypeError)
    case _ => Failure(ContentTypeError)
  }

  /** `parse_content(v)` on the decoded value `v`: `v["text"].encode(...)`,
      then `v["entities"]`, then the loop and the trailing text. */
  function ParseContentValue(v: Json, rule: GapRule): (r: Result<seq<Segment>, ContentError>)
    ensures !v.JObj? ==> r == Failure(ContentTypeError)
    ensures v.JObj? && "text" !in v.fields ==> r == Failure(ContentKeyError)
    ensures v.JObj? && "text" in v.fields && !v.fields["text"].JStr? ==> r == Failure(ContentAttributeError)
    ensures v.JObj? && "text" in v.fields && v.fields["text"].JStr? && "entities" !in v.fields ==> r == Failure(ContentKeyError)
    ensures r.Success? ==>
      && v.JObj? && "text" in v.fields && v.fields["text"].JStr? && "entities" in v.fields
      && Iterated(v.fields["entities"]).Success?
  {
    if !v.JObj? then Failure(ContentTypeError)
    else if "text" !in v.fields then Failure(ContentKeyError)
    else if !v.fields["text"].JStr? then Failure(ContentAttributeError)
    else if "entities" !in v.fields then Failure(ContentKeyError)
    else
      match Iterated(v.fields["entities"])
      case Failure(e) => Failure(e)
      case Success(items) => RawFrom(EncodeUtf16(v.fields["text"].s), items, 0, 0, [], rule)
  }

  /** The decoded form of an entity record and of a content. */
  function RecordValue(rec: TextContent.EntityRecord): Json {
    JObj(map["offset" := JInt(rec.offset), "length" := JInt(rec.length), "entity" := JObj(rec.entity)])
  }

  function RecordValues(recs: seq<TextContent.EntityRecord>): (items: seq<Json>)
    ensures |items| == |recs|
    ensures forall i :: 0 <= i < |recs| ==> items[i] == RecordValue(recs[i])
  {
    seq(|recs|, i requires 0 <= i < |recs| => RecordValue(recs[i]))
  }

  function ContentValue(text: string, recs: seq<TextContent.EntityRecord>): Json {
    JObj(map["text" := JStr(text), "entities" := JList(RecordValues(recs))])
  }

  /** On a record with every key present, one raw iteration is the typed
      step, ending at the record's offset plus its length. */
  lemma RawStepOfRecord(data: seq<byte>, rec: TextContent.EntityRecord, end: int, rule: GapRule)
    ensures EntityStep(data, rec, end, rule).Failure? ==>
      RawStep(data, RecordValue(rec), end, rule) == Failure(EntityStep(data, rec, end, rule).error)
    ensures EntityStep(data, rec, end, rule).Success? ==>
      RawStep(data, RecordValue(rec), end, rule) == Success((EntityStep(data, rec, end, rule).value, rec.offset + rec.length))
  {
    var e := RecordValue(rec);
    assert e.fields["entity"] == JObj(rec.entity);
    assert e.fields["offset"] == JInt(rec.offset);
    assert e.fields["length"] == JInt(rec.length);
    assert EntityStep(data, TextContent.EntityRecord(rec.entity, 0, rec.offset), end, rule) == EntityStep(data, rec, end, rule);
  }

  lemma {:induction false} RawFromRecords(data: seq<byte>, recs: seq<TextContent.EntityRecord>, j: nat, end: int, chain: seq<Segment>, rule: GapRule)
    requires j <= |recs|
    ensures RawFrom(data, RecordValues(recs), j, end, chain, rule) == ParseFrom(data, recs, j, end, chain, rule)
    decreases |recs| - j
  {
    if j < |recs| {
      RawStepOfRecord(data, recs[j], end, rule);
      var step := EntityStep(data, recs[j], end, rule);
      if step.Success? {
        RawFromRecords(data, recs, j + 1, recs[j].offset + recs[j].length, chain + step.value, rule);
      }
    }
  }

  /** A content whose text is a string and whose entities are records with
      every key present parses as the typed `ParseContentSpec` says. */
  lemma ParseContentTyped(text: string, recs: seq<TextContent.EntityRecord>, rule: GapRule)
    ensures ParseContentValue(ContentValue(text, recs), rule) == ParseContentSpec(text, recs, rule)
  {
    var v := ContentValue(text, recs);
    assert v.fields["text"] == JStr(text);
    assert v.fields["entities"] == JList(RecordValues(recs));
    RawFromRecords(EncodeUtf16(text), recs, 0, 0, [], rule);
  }

  /** An entity record read before its "length": a missing "length" is
      raised only after the entity's own step has succeeded, and a missing
      "offset" or "entity" at once. */
  lemma MissingKeysRaise(data: seq<byte>, rec: TextContent.EntityRecord, end: int, rule: GapRule, key: string)
    requires key in {"offset", "entity", "length"}
    ensures var e := JObj(RecordValue(rec).fields - {key});
      && (key != "length" ==> RawStep(data, e, end, rule) == Failure(ContentKeyError))
      && (key == "length" && EntityStep(data, rec, end, rule).Success? ==> RawStep(data, e, end, rule) == Failure(ContentKeyError))
      && (key == "length" && EntityStep(data, rec, end, rule).Failure? ==> RawStep(data, e, end, rule) == Failure(EntityStep(data, rec, end, rule).error))
  {
    var e := JObj(RecordValue(rec).fields - {key});
    if key == "length" {
      assert e.fields["entity"] == JObj(rec.entity);
      assert e.fields["offset"] == JInt(rec.offset);
      assert "length" !in e.fields;
      assert EntityStep(data, TextContent.EntityRecord(rec.entity, 0, rec.offset), end, rule) == EntityStep(data, rec, end, rule);
    } else {
      assert key !in e.fields;
    }
  }

  /** The chain `parse_content` returns for a content's text and entities. */
  function ParseContentSpec(text: string, entities: seq<TextContent.EntityRecord>, rule: GapRule): Result<seq<Segment>, ContentError> {
    ParseFrom(EncodeUtf16(text), entities, 0, 0, [], rule)
  }

  /** The body of `parse_content`'s loop for one entity record: what it
      appends to the chain. */
  method AppendEntity(data: seq<byte>, entity: TextContent.EntityRecord, endOffset: int, rule: GapRule) returns (r: Result<seq<Segment>, ContentError>)
    ensures r == EntityStep(data, entity, endOffset, rule)
  {
    var offset := entity.offset;
    if "type" !in entity.entity {
      return Failure(ContentKeyError);
    }
    var type_ := entity.entity["type"];
    var body := entity.entity - {"type"};
    if offset != endOffset {
      var gap := GapText(data, endOffset, offset);
      if gap.Failure? {
        return Failure(gap.error);
      }
      if rule == DropEntity {
        return Success([gap.value]);
      }
      var made := EntityOf(type_, body);
      if made.Failure? {
        return Failure(made.error);
      }
      r := Success([gap.value, made.value]);
    } else {
      var made := EntityOf(type_, body);
      if made.Failure? {
        return Failure(made.error);
      }
      r := Success([made.value]);
    }
  }

  /** The text after the last entity. */
  method TrailingText(data: seq<byte>, endOffset: int) returns (r: Result<seq<Segment>, ContentError>)
    ensures r == Trailing(data, endOffset)
  {
    if Rc(endOffset) != |data| {
      var rest := Decode(PySliceFrom(data, Rc(endOffset)));
      if rest.None? {
        return Failure(ContentDecodeError);
      }
      return Success([Text(rest.value)]);
    }
    return Success([]);
  }

  /** The body of `parse_content`'s loop for one decoded entity: what it
      appends and the new end offset. */
  method ReadEntity(data: seq<byte>, entity: Json, endOffset: int, rule: GapRule) returns (r: Result<(seq<Segment>, int), ContentError>)
    ensures r == RawStep(data, entity, endOffset, rule)
  {
    if !entity.JObj? {
      return Failure(ContentTypeError);
    }
    if "offset" !in entity.fields || "entity" !in entity.fields {
      return Failure(ContentKeyError);
    }
    var offsetValue := entity.fields["offset"];
    var body := entity.fields["entity"];
    if body.JList? {
      return Failure(ContentTypeError);
    }
    if !body.JObj? {
      return Failure(ContentAttributeError);
    }
    if "type" !in body.fields {
      return Failure(ContentKeyError);
    }
    var offset := PyInt(offsetValue);
    if offset.None? {
      return Failure(ContentTypeError);
    }
    var appended := AppendEntity(data, TextContent.EntityRecord(body.fields, 0, offset.value), endOffset, rule);
    if appended.Failure? {
      return Failure(appended.error);
    }
    if "length" !in entity.fields {
      return Failure(ContentKeyError);
    }
    var lastOffset := offset.value;
    var lastLength := PyInt(entity.fields["length"]);
    if lastLength.None? {
      return Failure(ContentTypeError);
    }
    r := Success((appended.value, lastOffset + lastLength.value));
  }

  /** `MessageContent.parse_content` on the decoded value of "content",
      with the gap rule as a parameter. */
  method ParseContent(v: Json, rule: GapRule) returns (r: Result<seq<Segment>, ContentError>)
    ensures r == ParseContentValue(v, rule)
  {
    if !v.JObj? {
      return Failure(ContentTypeError);
    }
    if "text" !in v.fields {
      return Failure(ContentKeyError);
    }
    if !v.fields["text"].JStr? {
      return Failure(ContentAttributeError);
    }
    var data := EncodeUtf16(v.fields["text"].s);
    if "entities" !in v.fields {
      return Failure(ContentKeyError);
    }
    var entities := Iterated(v.fields["entities"]);
    if entities.Failure? {
      return Failure(entities.error);
    }
    var items := entities.value;
    var chain: seq<Segment> := [];
    var endOffset := 0;
    var j := 0;
    while j < |items|
      invariant 0 <= j <= |items|
      invariant RawFrom(data, items, j, endOffset, chain, rule) == ParseContentValue(v, rule)
      decreases |items| - j
    {
      var step := ReadEntity(data, items[j], endOffset, rule);
      if step.Failure? {
        return Failure(step.error);
      }
      chain := chain + step.value.0;
      endOffset := step.value.1;
      j := j + 1;
    }
    var tail := TrailingText(data, endOffset);
    if tail.Failure? {
      return Failure(tail.error);
    }
    r := Success(chain + tail.value);
  }

  /** Empty text without entities gives an empty chain. */
  lemma EmptyContent(rule: GapRule)
    ensures ParseContentSpec("", [], rule) == Success([])
  {
    RcOfC("");
    CAdditive("", "");
  }

  /** Non-empty text without entities gives the whole text as one Text;
      a leading U+FEFF would be read as a byte order mark. */
  lemma PlainContent(text: string, rule: GapRule)
    requires text != [] && !StartsWithByteOrderMark(text)
    ensures ParseContentSpec(text, [], rule) == Success([Text(text)])
  {
    var data := EncodeUtf16(text);
    CCountsUnits(text);
    assert Rc(0) == 2;
    assert |data| > 2;
    assert data[2..] == UnitBytesLE(Units(text));
    DecodeBareUnits(text);
    assert Trailing(data, 0) == Success([Text(text)]);
    assert [] + [Text(text)] == [Text(text)];
  }
}
