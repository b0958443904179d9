/** The two directions of the rich-text content: converting a chain with
    `text_to_content` and parsing the result with `parse_content` gives the
    chain back, once offsets are counted in UTF-16 code units and the
    entity after a gap of text is kept. */
module ContentRoundTrip {
  import opened Wrappers
  import opened Bytes
  import opened Json
  import opened Segments
  import opened Utf16
  import opened TextContent
  import opened Events

  /** The chains the round trip holds for: text entities whose lookups go through, no quote;
      every Text is non-empty, does not start with a character a decoder
      reads as a byte-order mark, and is not followed by another Text
      (two adjacent texts come back merged). */
  predicate Normalized(segs: seq<Segment>, env: BotEnv) {
    && (forall j :: 0 <= j < |segs| ==> Convertible(segs[j], env) && !segs[j].Quote?)
    && (forall j :: 0 <= j < |segs| && segs[j].Text? ==> segs[j].text != "" && !StartsWithByteOrderMark(segs[j].text))
    && (forall j :: 0 <= j < |segs| - 1 ==> !TextPair(segs, j))
  }

  /** Segments j and j + 1 are both texts. */
  predicate TextPair(segs: seq<Segment>, j: nat)
    requires j + 1 < |segs|
  {
    segs[j].Text? && segs[j + 1].Text?
  }

  /** The attributes an entity is converted to construct it again. */
  lemma EntityRoundTrip(e: Segment)
    requires IsTextEntity(e) && !e.Text? && !e.Quote?
    ensures EntityOf(EntityBody(e)["type"], EntityBody(e) - {"type"}) == Success(e)
  {
    var body := EntityBody(e) - {"type"};
    match e
    case VillaRoomLink(villa, room) =>
      assert body == map["villa_id" := JStr(villa), "room_id" := JStr(room)];
      assert ENTITY_TYPES["villa_room_link"] == VillaRoomLinkClass;
    case Link(url) =>
      assert body == map["url" := JStr(url)];
      assert ENTITY_TYPES["link"] == LinkClass;
    case MentionedRobot(bot) =>
      assert body == map["bot_id" := JStr(bot)];
      assert ENTITY_TYPES["mentioned_robot"] == MentionedRobotClass;
    case MentionedUser(user, villa) =>
      assert body == map["user_id" := JStr(user), "_villa_id" := JInt(villa)];
      assert ENTITY_TYPES["mentioned_user"] == MentionedUserClass;
    case MentionedAll =>
      assert ENTITY_TYPES["mentioned_all"] == MentionedAllClass;
  }

  /** A record placed at the previous end gives back its entity alone. */
  lemma EntityAtEnd(data: seq<byte>, recs: seq<EntityRecord>, j: nat, e: Segment, length: int, end: int,
                    step: seq<Segment>, next: int)
    requires IsTextEntity(e) && !e.Text? && !e.Quote?
    requires j < |recs| && recs[j] == EntityRecord(EntityBody(e), length, end)
    requires step == [e] && next == end + length
    ensures EntityStep(data, recs[j], end, KeepEntity) == Success(step)
    ensures recs[j].offset + recs[j].length == next
  {
    EntityRoundTrip(e);
  }

  /** A record placed after the text t gives back t and then the entity. */
  lemma EntityAfterGap(data: seq<byte>, text: string, recs: seq<EntityRecord>, j: nat, p: string, t: string, r: string,
                       e: Segment, length: int, end: int, step: seq<Segment>, next: int)
    requires t != "" && !StartsWithByteOrderMark(t)
    requires IsTextEntity(e) && !e.Text? && !e.Quote?
    requires text == p + t + r && data == EncodeUtf16(text) && end == C(p)
    requires j < |recs| && recs[j] == EntityRecord(EntityBody(e), length, end + C(t))
    requires step == [Text(t), e] && next == end + C(t) + length
    ensures EntityStep(data, recs[j], end, KeepEntity) == Success(step)
    ensures recs[j].offset + recs[j].length == next
  {
    CCountsUnits(t);
    GapTextBack(data, text, p, t, r, end, recs[j].offset);
    EntityRoundTrip(e);
    KeptAfterGap(data, recs[j], end, Text(t), e);
  }

  /** What `EntityStep` appends after a gap, from its two parts. */
  lemma KeptAfterGap(data: seq<byte>, rec: EntityRecord, end: int, gap: Segment, e: Segment)
    requires "type" in rec.entity && rec.offset != end
    requires GapText(data, end, rec.offset) == Success(gap)
    requires EntityOf(rec.entity["type"], rec.entity - {"type"}) == Success(e)
    ensures EntityStep(data, rec, end, KeepEntity) == Success([gap, e])
  {
  }

  /** The segments from i to k, one by one. */
  lemma SegsOne(segs: seq<Segment>, i: nat)
    requires i < |segs|
    ensures segs[i..i + 1] == [segs[i]]
  {
  }

  lemma SegsTwo(segs: seq<Segment>, i: nat)
    requires i + 1 < |segs|
    ensures segs[i..i + 2] == [segs[i], segs[i + 1]]
  {
  }

  /** Records from j on, read off a split of the suffix. */
  lemma SliceHead(recs: seq<EntityRecord>, j: nat, all: seq<EntityRecord>, rec: EntityRecord, rest: seq<EntityRecord>)
    requires j <= |recs| && recs[j..] == all && all == [rec] + rest
    ensures j < |recs| && recs[j] == rec && recs[j + 1..] == rest
  {
    assert recs[j..][0] == rec;
    assert recs[j + 1..] == recs[j..][1..];
  }

  /** The text segment at the end decodes from the bytes after its start. */
  lemma TrailingTextBack(p: string, t: string)
    requires t != "" && !StartsWithByteOrderMark(t)
    ensures Trailing(EncodeUtf16(p + t), C(p)) == Success([Text(t)])
  {
    var data := EncodeUtf16(p + t);
    UnitsAppend(p, t);
    CCountsUnits(p);
    CCountsUnits(t);
    EncodedFrom(p + t, C(p));
    assert Units(p + t)[C(p)..] == Units(t);
    DecodeBareUnits(t);
  }

  /** A text segment between two entities decodes from its byte span. */
  lemma GapTextBack(data: seq<byte>, text: string, p: string, t: string, r: string, start: int, stop: int)
    requires t != "" && !StartsWithByteOrderMark(t)
    requires text == p + t + r && data == EncodeUtf16(text) && start == C(p) && stop == start + C(t)
    ensures GapText(data, start, stop) == Success(Text(t))
  {
    PieceUnits(p, t, r);
    CAdditive(p, t);
    GapBytes(data, text, p, t, r, start, stop);
    DecodeBareUnits(t);
  }

  /** The byte span of the middle of p + t + r. */
  lemma GapBytes(data: seq<byte>, text: string, p: string, t: string, r: string, start: int, stop: int)
    requires text == p + t + r && data == EncodeUtf16(text) && start == C(p) && stop == C(p + t)
    requires C(p) <= C(p + t) <= |Units(p + t + r)| && Units(p + t + r)[C(p)..C(p + t)] == Units(t)
    ensures PySlice(data, Rc(start), Rc(stop)) == UnitBytesLE(Units(t))
  {
    EncodedSlice(text, start, stop);
  }

  /** Moving a piece of the rest onto the prefix. */
  lemma Regroup(text: string, p: string, x: string, y: string)
    requires text == p + (x + y)
    ensures text == (p + x) + y
  {
  }

  /** The chain before segment i, then the segments from i on. */
  lemma ChainFrom(chain: seq<Segment>, segs: seq<Segment>, i: nat, k: nat)
    requires i <= k <= |segs|
    ensures (chain + segs[i..k]) + segs[k..] == chain + segs[i..]
  {
    assert segs[i..k] + segs[k..] == segs[i..];
  }

  /** One parse step and the rest of the parse make the whole parse. */
  lemma Compose(data: seq<byte>, recs: seq<EntityRecord>, j: nat, end: int, chain: seq<Segment>, step: seq<Segment>, next: int,
                result: seq<Segment>)
    requires j < |recs| && EntityStep(data, recs[j], end, KeepEntity) == Success(step)
    requires recs[j].offset + recs[j].length == next
    requires ParseFrom(data, recs, j + 1, next, chain + step, KeepEntity) == Success(result)
    ensures ParseFrom(data, recs, j, end, chain, KeepEntity) == Success(result)
  {
    ParseFromStep(data, recs, j, end, chain, KeepEntity, Success(step));
  }

  /** The text from an entity on: its piece, then the rest. */
  lemma TextFromEntity(segs: seq<Segment>, i: nat, env: BotEnv)
    requires i < |segs| && (forall j :: i <= j < |segs| ==> Convertible(segs[j], env)) && !segs[i].Quote?
    ensures TextFrom(segs, i, env) == Piece(segs, i, env) + TextFrom(segs, i + 1, env)
  {
  }

  /** The records from an entity on: its own, then the rest. */
  lemma RecordsFromEntity(segs: seq<Segment>, i: nat, env: BotEnv, offset: int)
    requires i < |segs| && (forall j :: i <= j < |segs| ==> Convertible(segs[j], env)) && !segs[i].Quote? && !segs[i].Text?
    ensures RecordsFrom(segs, i, env, CodeUnits, offset)
         == [EntityRecord(EntityBody(segs[i]), C(Piece(segs, i, env)), offset)]
            + RecordsFrom(segs, i + 1, env, CodeUnits, offset + C(Piece(segs, i, env)))
  {
  }

  /** A text contributes no record, only its length to the offset. */
  lemma RecordsFromText(segs: seq<Segment>, i: nat, env: BotEnv, offset: int, next: int)
    requires i < |segs| && (forall j :: i <= j < |segs| ==> Convertible(segs[j], env)) && segs[i].Text?
    requires next == offset + C(segs[i].text)
    ensures RecordsFrom(segs, i, env, CodeUnits, offset) == RecordsFrom(segs, i + 1, env, CodeUnits, next)
  {
    assert [] + RecordsFrom(segs, i + 1, env, CodeUnits, next) == RecordsFrom(segs, i + 1, env, CodeUnits, next);
  }

  /** The records of the whole content from j on, when segment i is an
      entity: its record, then those of the segments after it. */
  lemma EntityRecords(segs: seq<Segment>, env: BotEnv, i: nat, recs: seq<EntityRecord>, j: nat, u: int, next: int)
    requires i < |segs| && (forall k :: i <= k < |segs| ==> Convertible(segs[k], env)) && !segs[i].Quote? && !segs[i].Text?
    requires j <= |recs| && recs[j..] == RecordsFrom(segs, i, env, CodeUnits, u)
    requires next == u + C(Piece(segs, i, env))
    ensures j < |recs| && recs[j] == EntityRecord(EntityBody(segs[i]), C(Piece(segs, i, env)), u)
    ensures recs[j + 1..] == RecordsFrom(segs, i + 1, env, CodeUnits, next)
  {
    var rec := EntityRecord(EntityBody(segs[i]), C(Piece(segs, i, env)), u);
    RecordsFromEntity(segs, i, env, u);
    SliceHead(recs, j, RecordsFrom(segs, i, env, CodeUnits, u), rec, RecordsFrom(segs, i + 1, env, CodeUnits, next));
  }

  /** The same when segment i is a text followed by an entity. */
  lemma GapRecords(segs: seq<Segment>, env: BotEnv, i: nat, recs: seq<EntityRecord>, j: nat, u: int, at: int, next: int)
    requires i + 1 < |segs| && (forall k :: i <= k < |segs| ==> Convertible(segs[k], env))
    requires segs[i].Text? && !segs[i + 1].Quote? && !segs[i + 1].Text?
    requires j <= |recs| && recs[j..] == RecordsFrom(segs, i, env, CodeUnits, u)
    requires at == u + C(segs[i].text) && next == at + C(Piece(segs, i + 1, env))
    ensures j < |recs| && recs[j] == EntityRecord(EntityBody(segs[i + 1]), C(Piece(segs, i + 1, env)), at)
    ensures recs[j + 1..] == RecordsFrom(segs, i + 2, env, CodeUnits, next)
  {
    RecordsFromText(segs, i, env, u, at);
    EntityRecords(segs, env, i + 1, recs, j, at, next);
  }

  /** The text of the whole content, when segment i is an entity. */
  lemma EntityTextSplit(segs: seq<Segment>, env: BotEnv, i: nat, text: string, p: string)
    requires i < |segs| && (forall k :: i <= k < |segs| ==> Convertible(segs[k], env)) && !segs[i].Quote?
    requires text == p + TextFrom(segs, i, env)
    ensures text == (p + Piece(segs, i, env)) + TextFrom(segs, i + 1, env)
    ensures C(p + Piece(segs, i, env)) == C(p) + C(Piece(segs, i, env))
  {
    CAdditive(p, Piece(segs, i, env));
    TextFromEntity(segs, i, env);
    Regroup(text, p, Piece(segs, i, env), TextFrom(segs, i + 1, env));
  }

  /** The text of the whole content, when segment i is a text t followed
      by an entity. */
  lemma GapTextSplit(segs: seq<Segment>, env: BotEnv, i: nat, text: string, p: string)
    requires i + 1 < |segs| && (forall k :: i <= k < |segs| ==> Convertible(segs[k], env))
    requires segs[i].Text? && !segs[i + 1].Quote?
    requires text == p + TextFrom(segs, i, env)
    ensures text == p + segs[i].text + (Piece(segs, i + 1, env) + TextFrom(segs, i + 2, env))
    ensures text == (p + segs[i].text + Piece(segs, i + 1, env)) + TextFrom(segs, i + 2, env)
    ensures C(p + segs[i].text + Piece(segs, i + 1, env)) == C(p) + C(segs[i].text) + C(Piece(segs, i + 1, env))
  {
    var t, piece, rest := segs[i].text, Piece(segs, i + 1, env), TextFrom(segs, i + 2, env);
    TextFromEntity(segs, i, env);
    TextFromEntity(segs, i + 1, env);
    Regroup(text, p, t, piece + rest);
    Regroup(text, p + t, piece, rest);
    CAdditive(p, t);
    CAdditive(p + t, piece);
  }

  /** The round trip over the segments from index i, when the text
      before them is p (u code units), the records of the whole content
      from j on are theirs, and the chain before them is already parsed. */
  lemma {:induction false} RoundTripFrom(segs: seq<Segment>, env: BotEnv, i: nat, text: string, recs: seq<EntityRecord>, j: nat,
                                         p: string, u: int, chain: seq<Segment>)
    requires Normalized(segs, env) && i <= |segs| && j <= |recs| && u == C(p)
    requires text == p + TextFrom(segs, i, env)
    requires recs[j..] == RecordsFrom(segs, i, env, CodeUnits, u)
    ensures ParseFrom(EncodeUtf16(text), recs, j, u, chain, KeepEntity) == Success(chain + segs[i..])
    decreases |segs| - i
  {
    var data := EncodeUtf16(text);
    if i == |segs| {
      assert text == p;
      assert j == |recs|;
      RcOfC(p);
      ParseFromEnd(data, recs, u, chain, KeepEntity);
      assert chain + [] == chain + segs[i..];
    } else if !segs[i].Text? {
      RoundTripEntity(segs, env, i, text, recs, j, p, u, chain);
    } else if i + 1 == |segs| {
      var t := segs[i].text;
      TextFromEntity(segs, i, env);
      assert TextFrom(segs, i, env) == t + "";
      assert text == p + t;
      RecordsFromText(segs, i, env, u, u + C(t));
      assert j == |recs|;
      TrailingTextBack(p, t);
      ParseFromEnd(data, recs, u, chain, KeepEntity);
      assert segs[i..] == [Text(t)];
    } else {
      RoundTripGap(segs, env, i, text, recs, j, p, u, chain);
    }
  }

  /** The case of an entity at index i. */
  lemma {:induction false} RoundTripEntity(segs: seq<Segment>, env: BotEnv, i: nat, text: string, recs: seq<EntityRecord>, j: nat,
                                           p: string, u: int, chain: seq<Segment>)
    requires Normalized(segs, env) && i < |segs| && j <= |recs| && u == C(p) && !segs[i].Text?
    requires text == p + TextFrom(segs, i, env)
    requires recs[j..] == RecordsFrom(segs, i, env, CodeUnits, u)
    ensures ParseFrom(EncodeUtf16(text), recs, j, u, chain, KeepEntity) == Success(chain + segs[i..])
    decreases |segs| - i, 0
  {
    var data := EncodeUtf16(text);
    var e := segs[i];
    var piece := Piece(segs, i, env);
    var next := u + C(piece);
    EntityRecords(segs, env, i, recs, j, u, next);
    EntityTextSplit(segs, env, i, text, p);
    RoundTripFrom(segs, env, i + 1, text, recs, j + 1, p + piece, next, chain + segs[i..i + 1]);
    ChainFrom(chain, segs, i, i + 1);
    SegsOne(segs, i);
    EntityAtEnd(data, recs, j, e, C(piece), u, segs[i..i + 1], next);
    Compose(data, recs, j, u, chain, segs[i..i + 1], next, chain + segs[i..]);
  }

  /** The case of a text at index i followed by an entity. */
  lemma {:induction false} RoundTripGap(segs: seq<Segment>, env: BotEnv, i: nat, text: string, recs: seq<EntityRecord>, j: nat,
                                        p: string, u: int, chain: seq<Segment>)
    requires Normalized(segs, env) && i + 1 < |segs| && j <= |recs| && u == C(p) && segs[i].Text?
    requires text == p + TextFrom(segs, i, env)
    requires recs[j..] == RecordsFrom(segs, i, env, CodeUnits, u)
    ensures ParseFrom(EncodeUtf16(text), recs, j, u, chain, KeepEntity) == Success(chain + segs[i..])
    decreases |segs| - i, 0
  {
    var data := EncodeUtf16(text);
    var t := segs[i].text;
    var e := segs[i + 1];
    assert !TextPair(segs, i);
    var piece := Piece(segs, i + 1, env);
    var rest := TextFrom(segs, i + 2, env);
    var next := u + C(t) + C(piece);
    GapRecords(segs, env, i, recs, j, u, u + C(t), next);
    GapTextSplit(segs, env, i, text, p);
    RoundTripFrom(segs, env, i + 2, text, recs, j + 1, p + t + piece, next, chain + segs[i..i + 2]);
    ChainFrom(chain, segs, i, i + 2);
    SegsTwo(segs, i);
    EntityAfterGap(data, text, recs, j, p, t, piece + rest, e, C(piece), u, segs[i..i + 2], next);
    Compose(data, recs, j, u, chain, segs[i..i + 2], next, chain + segs[i..]);
  }

  /** Parsing the content a normalized chain converts to (offsets in code
      units, the entity after a gap kept) gives the chain back. */
  lemma RoundTrip(segs: seq<Segment>, env: BotEnv)
    requires Normalized(segs, env)
    ensures TextToContentSpec(segs, env, CodeUnits).Success?
    ensures var c := TextToContentSpec(segs, env, CodeUnits).value;
      ParseContentSpec(c.text, c.entities, KeepEntity) == Success(segs)
  {
    ContentPieces(segs, env, CodeUnits);
    var c := TextToContentSpec(segs, env, CodeUnits).value;
    CAdditive("", "");
    assert c.text == "" + TextFrom(segs, 0, env);
    RoundTripFrom(segs, env, 0, c.text, c.entities, 0, "", 0, []);
    assert [] + segs[0..] == segs;
  }

  /** A single entity record after a gap: the rule that keeps the entity
      gives the gap's text, the entity and the trailing text, and the rule
      as written gives the same chain without the entity. */
  lemma DroppedAfterGap(data: seq<byte>, recs: seq<EntityRecord>, segs: seq<Segment>)
    requires |recs| == 1 && recs[0].offset != 0
    requires ParseFrom(data, recs, 0, 0, [], KeepEntity) == Success(segs)
    ensures |segs| >= 2
    ensures ParseFrom(data, recs, 0, 0, [], DropEntity) == Success([segs[0]] + segs[2..])
  {
    var rec := recs[0];
    var keep, drop := EntityStep(data, rec, 0, KeepEntity), EntityStep(data, rec, 0, DropEntity);
    ParseFromStep(data, recs, 0, 0, [], KeepEntity, keep);
    ParseFromStep(data, recs, 0, 0, [], DropEntity, drop);
    EntityStepRules(data, rec, 0, KeepEntity);
    var gap := GapText(data, 0, rec.offset);
    assert keep.value == [gap.value, keep.value[1]] && drop == Success([gap.value]);
    var next := rec.offset + rec.length;
    ParseFromEnd(data, recs, next, [] + keep.value, KeepEntity);
    ParseFromEnd(data, recs, next, [] + drop.value, DropEntity);
    var tail := Trailing(data, next);
    assert tail.Success? && segs == [] + keep.value + tail.value;
    assert segs[0] == gap.value && segs[2..] == tail.value;
    assert [] + drop.value + tail.value == [segs[0]] + segs[2..];
  }

  /** The chain of a text and a mention of everyone converts to a single
      entity record after a one-unit gap. */
  lemma TextThenMention(env: BotEnv)
    ensures TextToContentSpec([Text("a"), MentionedAll], env, CodeUnits).Success?
    ensures var c := TextToContentSpec([Text("a"), MentionedAll], env, CodeUnits).value;
      |c.entities| == 1 && c.entities[0].offset == 1
  {
    var segs := [Text("a"), MentionedAll];
    ContentPieces(segs, env, CodeUnits);
    assert Units("a") == [0x61];
    var rec := EntityRecord(EntityBody(MentionedAll), C(Piece(segs, 1, env)), C("a"));
    assert RecordsFrom(segs, 1, env, CodeUnits, C("a")) == [rec] + [];
  }

  /** As written, an entity that follows a gap of text is dropped: the
      chain of a text and a mention of everyone converts to a content that
      parses back to the text alone. */
  lemma GapDropsEntity(env: BotEnv)
    ensures TextToContentSpec([Text("a"), MentionedAll], env, CodeUnits).Success?
    ensures var c := TextToContentSpec([Text("a"), MentionedAll], env, CodeUnits).value;
      && ParseContentSpec(c.text, c.entities, KeepEntity) == Success([Text("a"), MentionedAll])
      && ParseContentSpec(c.text, c.entities, DropEntity) == Success([Text("a")])
  {
    var segs := [Text("a"), MentionedAll];
    assert !TextPair(segs, 0);
    RoundTrip(segs, env);
    TextThenMention(env);
    var c := TextToContentSpec(segs, env, CodeUnits).value;
    DroppedAfterGap(EncodeUtf16(c.text), c.entities, segs);
    assert [segs[0]] + segs[2..] == [Text("a")];
  }
}
