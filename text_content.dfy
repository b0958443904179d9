/** `text_to_content` (hertavilla/message/text.py): turns the text-entity
    segments of a chain into the text, the entity records with their
    offsets and lengths, the mention info and the quote info of an
    "MHY:Text" message. */
module TextContent {
  import opened Wrappers
  import opened Json
  import opened Segments
  import opened Utf16
  import Seqs

  /** `QuoteInfo`: the quoted message, whose id and time are also given as
      the root of the quote tree. */
  datatype QuoteInfo = QuoteInfo(
    quotedMessageId: string, quotedMessageSendTime: int,
    originalMessageId: string, originalMessageSendTime: int)

  /** `MentionedInfo`: kind 1 mentions everyone, kind 2 the listed users. */
  datatype MentionedInfo = MentionedInfo(kind: int, userIdList: seq<string>)

  /** `EntityDict`: the entity's attributes with its `type`, and its span
      in the text. */
  datatype EntityRecord = EntityRecord(entity: map<string, Json>, length: int, offset: int)

  /** `TextMsgContentInfo`. */
  datatype TextMsgContentInfo = TextMsgContentInfo(
    text: string, entities: seq<EntityRecord>,
    quote: Option<QuoteInfo>, mentionedInfo: Option<MentionedInfo>)

  /** What the conversion raised: `get_text` raised (a post, a lookup, or
      a user id that is not an integer), or the segment is no text entity
      and has no `type_` (an image or a panel). */
  datatype TextError = GetTextFailed | NoTypeAttribute

  /** What the running offset counts. The source advances it by `len`,
      code points; the lengths and the receiving side count UTF-16 code
      units. */
  datatype OffsetUnit = CodePoints | CodeUnits

  function Advance(t: string, unit: OffsetUnit): int {
    if unit == CodePoints then |t| else C(t)
  }

  /** `"".join(ts)`. */
  function Join(ts: seq<string>): string {
    if ts == [] then "" else Join(ts[..|ts| - 1]) + ts[|ts| - 1]
  }

  lemma JoinSnoc(ts: seq<string>, t: string)
    ensures Join(ts + [t]) == Join(ts) + t
  {
    assert (ts + [t])[..|ts|] == ts;
  }

  /** `{"type": entity.type_, **entity.__dict__}`. */
  function EntityBody(s: Segment): (m: map<string, Json>)
    requires IsTextEntity(s) && !s.Text? && !s.Quote?
    ensures "type" in m && m["type"] == JStr(TypeName(ClassOf(s)))
  {
    var t := JStr(TypeName(ClassOf(s)));
    match s
    case VillaRoomLink(villa, room) => map["type" := t, "villa_id" := JStr(villa), "room_id" := JStr(room)]
    case Link(url) => map["type" := t, "url" := JStr(url)]
    case MentionedRobot(bot) => map["type" := t, "bot_id" := JStr(bot)]
    case MentionedUser(user, villa) => map["type" := t, "user_id" := JStr(user), "_villa_id" := JInt(villa)]
    case MentionedAll => map["type" := t]
  }

  /** The mention-info update for one mention: the first creates the info,
      a later one replaces the kind unless it is already 1, and kind-2 ids
      are appended. */
  function AddMention(m: Option<MentionedInfo>, x: Mention): MentionedInfo {
    var ids := if x.kind != 1 then [x.id] else [];
    if m.None? then MentionedInfo(x.kind, ids)
    else MentionedInfo(if m.value.kind != 1 then x.kind else m.value.kind, m.value.userIdList + ids)
  }

  function QuoteInfoOf(s: Segment): QuoteInfo
    requires s.Quote?
  {
    QuoteInfo(s.messageId, s.time, s.messageId, s.time)
  }

  /** The loop variables of `text_to_content`. */
  datatype TextState = TextState(
    texts: seq<string>, entities: seq<EntityRecord>,
    mentioned: Option<MentionedInfo>, quote: Option<QuoteInfo>, offset: int)

  const INIT: TextState := TextState([], [], None, None, 0)

  /** The trailing space of a non-text entity: none at the last index. */
  function Space(segs: seq<Segment>, i: nat): string
    requires i < |segs|
  {
    if i == |segs| - 1 then "" else " "
  }

  /** A segment the loop gets through: a text entity whose `get_text`
      lookups go through. */
  predicate Convertible(s: Segment, env: BotEnv) {
    IsTextEntity(s) && Fetched(s, env)
  }

  /** The piece segment i contributes to the text. */
  function Piece(segs: seq<Segment>, i: nat, env: BotEnv): string
    requires i < |segs| && Convertible(segs[i], env) && !segs[i].Quote?
  {
    if segs[i].Text? then segs[i].text else GetText(segs[i], env).value + Space(segs, i)
  }

  /** One iteration of the loop. */
  function Step(st: TextState, segs: seq<Segment>, i: nat, env: BotEnv, unit: OffsetUnit): (r: Result<TextState, TextError>)
    requires i < |segs|
    ensures r.Success? <==> Convertible(segs[i], env)
  {
    var s := segs[i];
    if s.Quote? then Success(st.(quote := Some(QuoteInfoOf(s))))
    else if s.Text? then Success(st.(texts := st.texts + [s.text], offset := st.offset + Advance(s.text, unit)))
    else
      match GetText(s, env)
      case Failure(_) => Failure(GetTextFailed)
      case Success(got) =>
        if !IsTextEntity(s) then Failure(NoTypeAttribute)
        else
          var text := got + Space(segs, i);
          var m := GetMention(s);
          Success(TextState(
            st.texts + [text],
            st.entities + [EntityRecord(EntityBody(s), C(text), st.offset)],
            if m.Some? then Some(AddMention(st.mentioned, m.value)) else st.mentioned,
            st.quote,
            st.offset + Advance(text, unit)))
  }

  /** The remaining iterations from index i. */
  function RunFrom(st: TextState, segs: seq<Segment>, i: nat, env: BotEnv, unit: OffsetUnit): Result<TextState, TextError>
    requires i <= |segs|
    decreases |segs| - i
  {
    if i == |segs| then Success(st)
    else
      match Step(st, segs, i, env, unit)
      case Failure(e) => Failure(e)
      case Success(next) => RunFrom(next, segs, i + 1, env, unit)
  }

  /** The value `text_to_content` returns. */
  function TextToContentSpec(segs: seq<Segment>, env: BotEnv, unit: OffsetUnit): Result<TextMsgContentInfo, TextError> {
    match RunFrom(INIT, segs, 0, env, unit)
    case Failure(e) => Failure(e)
    case Success(st) => Success(TextMsgContentInfo(Join(st.texts), st.entities, st.quote, st.mentioned))
  }

  /** One step of the run, taken with its result already in hand. */
  lemma RunFromNext(st: TextState, segs: seq<Segment>, i: nat, env: BotEnv, unit: OffsetUnit, st2: TextState)
    requires i < |segs| && Step(st, segs, i, env, unit) == Success(st2)
    ensures RunFrom(st, segs, i, env, unit) == RunFrom(st2, segs, i + 1, env, unit)
  {
  }

  /** The mention-info update inside the loop of `text_to_content`. */
  method MergeMention(info: Option<MentionedInfo>, mention: Mention) returns (r: Option<MentionedInfo>)
    ensures r == Some(AddMention(info, mention))
  {
    var type_, id_ := mention.kind, mention.id;
    r := info;
    if r.None? {
      r := Some(MentionedInfo(type_, []));
    } else if r.value.kind != 1 {
      r := Some(r.value.(kind := type_));
    }
    if type_ != 1 {
      assert [] + [id_] == [id_];
      r := Some(r.value.(userIdList := r.value.userIdList + [id_]));
    } else {
      assert r.value.userIdList + [] == r.value.userIdList;
    }
  }

  /** `text_to_content(text_entities, bot)`, with the running offset
      counted in `unit`. */
  method TextToContent(textEntities: seq<Segment>, env: BotEnv, unit: OffsetUnit) returns (r: Result<TextMsgContentInfo, TextError>)
    ensures r == TextToContentSpec(textEntities, env, unit)
  {
    var texts: seq<string> := [];
    var entities: seq<EntityRecord> := [];
    var mentionedInfo: Option<MentionedInfo> := None;
    var quote: Option<QuoteInfo> := None;
    var offset := 0;
    var i := 0;
    while i < |textEntities|
      invariant 0 <= i <= |textEntities|
      invariant RunFrom(TextState(texts, entities, mentionedInfo, quote, offset), textEntities, i, env, unit)
             == RunFrom(INIT, textEntities, 0, env, unit)
      decreases |textEntities| - i
    {
      ghost var st := TextState(texts, entities, mentionedInfo, quote, offset);
      var entity := textEntities[i];
      if entity.Quote? {
        quote := Some(QuoteInfo(entity.messageId, entity.time, entity.messageId, entity.time));
        RunFromNext(st, textEntities, i, env, unit, TextState(texts, entities, mentionedInfo, quote, offset));
        i := i + 1;
        continue;
      }
      var space := if i == |textEntities| - 1 then "" else " ";
      var text: string;
      if entity.Text? {
        text := entity.text;
      } else {
        var got := GetText(entity, env);
        if got.Failure? {
          return Failure(GetTextFailed);
        }
        text := got.value + space;
        if !IsTextEntity(entity) {
          return Failure(NoTypeAttribute);
        }
        entities := entities + [EntityRecord(EntityBody(entity), C(text), offset)];
        var mention := GetMention(entity);
        if mention.Some? {
          mentionedInfo := MergeMention(mentionedInfo, mention.value);
        }
      }
      offset := offset + Advance(text, unit);
      texts := texts + [text];
      RunFromNext(st, textEntities, i, env, unit, TextState(texts, entities, mentionedInfo, quote, offset));
      i := i + 1;
    }
    r := Success(TextMsgContentInfo(Join(texts), entities, quote, mentionedInfo));
  }

  // ---------------------------------------------------------------------
  // What the conversion promises
  // ---------------------------------------------------------------------

  /** The conversion fails exactly when some segment is not a text entity
      (an image, a post or a panel) or its `get_text` lookup fails. */
  lemma {:induction false} RunSucceeds(st: TextState, segs: seq<Segment>, i: nat, env: BotEnv, unit: OffsetUnit)
    requires i <= |segs|
    ensures RunFrom(st, segs, i, env, unit).Success? <==> forall j :: i <= j < |segs| ==> Convertible(segs[j], env)
    decreases |segs| - i
  {
    if i < |segs| {
      match Step(st, segs, i, env, unit)
      case Failure(_) =>
      case Success(next) => RunSucceeds(next, segs, i + 1, env, unit);
    }
  }

  /** The last quote wins; without one the quote info is unchanged. */
  lemma {:induction false} LastQuoteWins(st: TextState, segs: seq<Segment>, i: nat, env: BotEnv, unit: OffsetUnit)
    requires i <= |segs|
    requires RunFrom(st, segs, i, env, unit).Success?
    ensures var q := RunFrom(st, segs, i, env, unit).value.quote;
      && ((forall j :: i <= j < |segs| ==> !segs[j].Quote?) ==> q == st.quote)
      && (forall j :: i <= j < |segs| && segs[j].Quote? && (forall k :: j < k < |segs| ==> !segs[k].Quote?) ==>
            q == Some(QuoteInfoOf(segs[j])))
    decreases |segs| - i
  {
    if i < |segs| {
      var next := Step(st, segs, i, env, unit).value;
      LastQuoteWins(next, segs, i + 1, env, unit);
    }
  }

  /** Whether any segment from index i mentions someone, or everyone. */
  predicate HasMention(segs: seq<Segment>, i: nat) {
    exists j :: i <= j < |segs| && GetMention(segs[j]).Some?
  }

  predicate HasMentionAll(segs: seq<Segment>, i: nat) {
    exists j :: i <= j < |segs| && segs[j].MentionedAll?
  }

  /** The ids of the kind-2 mentions from index i, in order. */
  function MentionIds(segs: seq<Segment>, i: nat): seq<string>
    requires i <= |segs|
    decreases |segs| - i
  {
    if i == |segs| then []
    else
      var m := GetMention(segs[i]);
      (if m.Some? && m.value.kind == 2 then [m.value.id] else []) + MentionIds(segs, i + 1)
  }

  lemma {:induction false} NoMentionNoIds(segs: seq<Segment>, i: nat)
    requires i <= |segs|
    requires !HasMention(segs, i)
    ensures !HasMentionAll(segs, i) && MentionIds(segs, i) == []
    decreases |segs| - i
  {
    if i < |segs| {
      NoMentionNoIds(segs, i + 1);
    }
    forall j | i <= j < |segs|
      ensures !segs[j].MentionedAll?
    {
      assert GetMention(segs[j]).None?;
    }
  }

  /** The mention info after the mentions from index i are added to `m`. */
  function MentionFold(m: Option<MentionedInfo>, segs: seq<Segment>, i: nat): Option<MentionedInfo>
    requires i <= |segs|
    decreases |segs| - i
  {
    if i == |segs| then m
    else
      var x := GetMention(segs[i]);
      MentionFold(if x.Some? then Some(AddMention(m, x.value)) else m, segs, i + 1)
  }

  /** What one iteration does to the mention info. */
  lemma StepMention(st: TextState, segs: seq<Segment>, i: nat, env: BotEnv, unit: OffsetUnit)
    requires i < |segs| && Convertible(segs[i], env)
    ensures Step(st, segs, i, env, unit).Success?
    ensures var x := GetMention(segs[i]);
      Step(st, segs, i, env, unit).value.mentioned == if x.Some? then Some(AddMention(st.mentioned, x.value)) else st.mentioned
  {
  }

  /** The loop adds the mentions one by one. */
  lemma {:induction false} RunMentions(st: TextState, segs: seq<Segment>, i: nat, env: BotEnv, unit: OffsetUnit)
    requires i <= |segs|
    requires RunFrom(st, segs, i, env, unit).Success?
    ensures RunFrom(st, segs, i, env, unit).value.mentioned == MentionFold(st.mentioned, segs, i)
    decreases |segs| - i
  {
    if i < |segs| {
      assert Convertible(segs[i], env);
      StepMention(st, segs, i, env, unit);
      var next := Step(st, segs, i, env, unit).value;
      assert RunFrom(st, segs, i, env, unit) == RunFrom(next, segs, i + 1, env, unit);
      RunMentions(next, segs, i + 1, env, unit);
    }
  }

  /** Mention info r is what adding the mentions from index i to `m`
      should give: `m` itself without mentions; otherwise kind 1 exactly
      when `m` already had kind 1 or some later segment mentions everyone,
      and the user list of `m` followed by the kind-2 ids in order. */
  predicate Collected(m: Option<MentionedInfo>, segs: seq<Segment>, i: nat, r: Option<MentionedInfo>)
    requires i <= |segs|
  {
    && (!HasMention(segs, i) ==> r == m)
    && (HasMention(segs, i) ==> r == Some(MentionedInfo(
          if (m.Some? && m.value.kind == 1) || HasMentionAll(segs, i) then 1 else 2,
          (if m.Some? then m.value.userIdList else []) + MentionIds(segs, i))))
  }

  lemma {:induction false} MentionsCollected(m: Option<MentionedInfo>, segs: seq<Segment>, i: nat)
    requires i <= |segs|
    requires m.Some? ==> m.value.kind == 1 || m.value.kind == 2
    ensures Collected(m, segs, i, MentionFold(m, segs, i))
    decreases |segs| - i
  {
    if i < |segs| {
      var x := GetMention(segs[i]);
      var next := if x.Some? then Some(AddMention(m, x.value)) else m;
      MentionsCollected(next, segs, i + 1);
      CollectedStep(m, segs, i, MentionFold(next, segs, i + 1));
    }
  }

  /** The mentions from i are those of segment i and those after it. */
  lemma MentionsSplit(segs: seq<Segment>, i: nat)
    requires i < |segs|
    ensures HasMention(segs, i) <==> GetMention(segs[i]).Some? || HasMention(segs, i + 1)
    ensures HasMentionAll(segs, i) <==> segs[i].MentionedAll? || HasMentionAll(segs, i + 1)
    ensures var x := GetMention(segs[i]);
      MentionIds(segs, i) == (if x.Some? && x.value.kind == 2 then [x.value.id] else []) + MentionIds(segs, i + 1)
  {
    if GetMention(segs[i]).Some? {
      assert HasMention(segs, i);
    }
    if segs[i].MentionedAll? {
      assert HasMentionAll(segs, i);
    }
  }

  /** Adding segment i's mention to what the rest collects. */
  lemma CollectedStep(m: Option<MentionedInfo>, segs: seq<Segment>, i: nat, r: Option<MentionedInfo>)
    requires i < |segs|
    requires m.Some? ==> m.value.kind == 1 || m.value.kind == 2
    requires var x := GetMention(segs[i]);
      Collected(if x.Some? then Some(AddMention(m, x.value)) else m, segs, i + 1, r)
    ensures Collected(m, segs, i, r)
  {
    MentionsSplit(segs, i);
    var x := GetMention(segs[i]);
    if x.None? {
      assert !segs[i].MentionedAll?;
      assert [] + MentionIds(segs, i + 1) == MentionIds(segs, i + 1);
      assert MentionIds(segs, i) == MentionIds(segs, i + 1);
    } else {
      CollectedAdd(m, segs, i, r);
    }
  }

  /** The same when segment i mentions someone. */
  lemma CollectedAdd(m: Option<MentionedInfo>, segs: seq<Segment>, i: nat, r: Option<MentionedInfo>)
    requires i < |segs| && GetMention(segs[i]).Some?
    requires m.Some? ==> m.value.kind == 1 || m.value.kind == 2
    requires Collected(Some(AddMention(m, GetMention(segs[i]).value)), segs, i + 1, r)
    ensures Collected(m, segs, i, r)
  {
    MentionsSplit(segs, i);
    var x := GetMention(segs[i]).value;
    var next := AddMention(m, x);
    var head := if x.kind == 2 then [x.id] else [];
    var prev := if m.Some? then m.value.userIdList else [];
    assert next.userIdList == prev + head;
    assert HasMention(segs, i);
    if !HasMention(segs, i + 1) {
      NoMentionNoIds(segs, i + 1);
      assert head + [] == head;
      assert r == Some(next);
    } else {
      assert (prev + head) + MentionIds(segs, i + 1) == prev + (head + MentionIds(segs, i + 1));
    }
  }

  /** For the whole conversion: no mention info without mentions; kind 1
      exactly when someone mentions everyone; the kind-2 ids in order. */
  lemma MentionRule(segs: seq<Segment>, env: BotEnv, unit: OffsetUnit)
    requires TextToContentSpec(segs, env, unit).Success?
    ensures var m := TextToContentSpec(segs, env, unit).value.mentionedInfo;
      && (m.None? <==> !HasMention(segs, 0))
      && (m.Some? ==> m.value.kind == (if HasMentionAll(segs, 0) then 1 else 2))
      && (m.Some? ==> m.value.userIdList == MentionIds(segs, 0))
  {
    RunMentions(INIT, segs, 0, env, unit);
    MentionsCollected(None, segs, 0);
  }

  /** The quote info of the whole conversion. */
  lemma QuoteRule(segs: seq<Segment>, env: BotEnv, unit: OffsetUnit)
    requires TextToContentSpec(segs, env, unit).Success?
    ensures var q := TextToContentSpec(segs, env, unit).value.quote;
      && ((forall j :: 0 <= j < |segs| ==> !segs[j].Quote?) ==> q.None?)
      && (forall j :: 0 <= j < |segs| && segs[j].Quote? && (forall k :: j < k < |segs| ==> !segs[k].Quote?) ==>
            q == Some(QuoteInfo(segs[j].messageId, segs[j].time, segs[j].messageId, segs[j].time)))
  {
    LastQuoteWins(INIT, segs, 0, env, unit);
  }

  // ---------------------------------------------------------------------
  // Text, records and offsets
  // ---------------------------------------------------------------------

  /** The pieces from index i joined in order (a quote adds nothing). */
  function TextFrom(segs: seq<Segment>, i: nat, env: BotEnv): string
    requires i <= |segs|
    requires forall j :: i <= j < |segs| ==> Convertible(segs[j], env)
    decreases |segs| - i
  {
    if i == |segs| then ""
    else (if segs[i].Quote? then "" else Piece(segs, i, env)) + TextFrom(segs, i + 1, env)
  }

  /** The entity records from index i when the running offset starts at
      `offset`: one per entity, spanning its piece's code units, placed
      at the offset reached so far. */
  function RecordsFrom(segs: seq<Segment>, i: nat, env: BotEnv, unit: OffsetUnit, offset: int): seq<EntityRecord>
    requires i <= |segs|
    requires forall j :: i <= j < |segs| ==> Convertible(segs[j], env)
    decreases |segs| - i
  {
    if i == |segs| then []
    else if segs[i].Quote? then RecordsFrom(segs, i + 1, env, unit, offset)
    else
      var p := Piece(segs, i, env);
      (if segs[i].Text? then [] else [EntityRecord(EntityBody(segs[i]), C(p), offset)])
        + RecordsFrom(segs, i + 1, env, unit, offset + Advance(p, unit))
  }

  /** What one iteration adds to the text, the records and the offset. */
  lemma StepPiece(st: TextState, segs: seq<Segment>, i: nat, env: BotEnv, unit: OffsetUnit)
    requires i < |segs| && Convertible(segs[i], env)
    ensures Step(st, segs, i, env, unit).Success?
    ensures var next := Step(st, segs, i, env, unit).value;
      if segs[i].Quote? then next.texts == st.texts && next.entities == st.entities && next.offset == st.offset
      else
        && next.texts == st.texts + [Piece(segs, i, env)]
        && next.offset == st.offset + Advance(Piece(segs, i, env), unit)
        && next.entities == st.entities +
             (if segs[i].Text? then [] else [EntityRecord(EntityBody(segs[i]), C(Piece(segs, i, env)), st.offset)])
  {
  }

  /** The pieces from index i, in order. */
  function PiecesFrom(segs: seq<Segment>, i: nat, env: BotEnv): seq<string>
    requires i <= |segs|
    requires forall j :: i <= j < |segs| ==> Convertible(segs[j], env)
    decreases |segs| - i
  {
    if i == |segs| then []
    else (if segs[i].Quote? then [] else [Piece(segs, i, env)]) + PiecesFrom(segs, i + 1, env)
  }

  lemma {:induction false} JoinAppend(ts: seq<string>, us: seq<string>)
    ensures Join(ts + us) == Join(ts) + Join(us)
    decreases |us|
  {
    if us == [] {
      assert ts + us == ts;
    } else {
      var last := us[|us| - 1];
      var init := us[..|us| - 1];
      assert us == init + [last];
      assert ts + us == (ts + init) + [last];
      JoinSnoc(ts + init, last);
      JoinSnoc(init, last);
      JoinAppend(ts, init);
    }
  }

  /** Joining the pieces gives the text. */
  lemma {:induction false} JoinPieces(segs: seq<Segment>, i: nat, env: BotEnv)
    requires i <= |segs|
    requires forall j :: i <= j < |segs| ==> Convertible(segs[j], env)
    ensures Join(PiecesFrom(segs, i, env)) == TextFrom(segs, i, env)
    decreases |segs| - i
  {
    if i < |segs| {
      JoinPieces(segs, i + 1, env);
      var rest := PiecesFrom(segs, i + 1, env);
      if segs[i].Quote? {
        assert PiecesFrom(segs, i, env) == [] + rest == rest;
        assert TextFrom(segs, i, env) == "" + TextFrom(segs, i + 1, env) == TextFrom(segs, i + 1, env);
      } else {
        var p := Piece(segs, i, env);
        assert PiecesFrom(segs, i, env) == [p] + rest;
        JoinAppend([p], rest);
        assert Join([p]) == Join([]) + p == p by { JoinSnoc([], p); }
      }
    }
  }

  /** The loop from index i appends the remaining pieces. */
  lemma {:induction false} RunPieces(st: TextState, segs: seq<Segment>, i: nat, env: BotEnv, unit: OffsetUnit)
    requires i <= |segs|
    requires forall j :: i <= j < |segs| ==> Convertible(segs[j], env)
    ensures RunFrom(st, segs, i, env, unit).Success?
    ensures RunFrom(st, segs, i, env, unit).value.texts == st.texts + PiecesFrom(segs, i, env)
    decreases |segs| - i
  {
    if i < |segs| {
      StepPiece(st, segs, i, env, unit);
      var next := Step(st, segs, i, env, unit).value;
      RunFromNext(st, segs, i, env, unit, next);
      RunPieces(next, segs, i + 1, env, unit);
      var rest := PiecesFrom(segs, i + 1, env);
      if segs[i].Quote? {
        assert PiecesFrom(segs, i, env) == rest;
      } else {
        var p := Piece(segs, i, env);
        assert PiecesFrom(segs, i, env) == [p] + rest;
        Seqs.AppendAssoc(st.texts, [p], rest);
      }
    }
  }

  /** The loop from index i appends the records of the remaining entities. */
  lemma {:induction false} RunRecords(st: TextState, segs: seq<Segment>, i: nat, env: BotEnv, unit: OffsetUnit)
    requires i <= |segs|
    requires forall j :: i <= j < |segs| ==> Convertible(segs[j], env)
    ensures RunFrom(st, segs, i, env, unit).Success?
    ensures RunFrom(st, segs, i, env, unit).value.entities == st.entities + RecordsFrom(segs, i, env, unit, st.offset)
    decreases |segs| - i
  {
    if i < |segs| {
      StepPiece(st, segs, i, env, unit);
      var next := Step(st, segs, i, env, unit).value;
      RunFromNext(st, segs, i, env, unit, next);
      RunRecords(next, segs, i + 1, env, unit);
      RecordsNext(segs, i, env, unit, st.offset);
      if !segs[i].Quote? {
        var head := if segs[i].Text? then [] else [EntityRecord(EntityBody(segs[i]), C(Piece(segs, i, env)), st.offset)];
        Seqs.AppendAssoc(st.entities, head, RecordsFrom(segs, i + 1, env, unit, next.offset));
      }
    }
  }

  /** One step of `RecordsFrom`. */
  lemma RecordsNext(segs: seq<Segment>, i: nat, env: BotEnv, unit: OffsetUnit, offset: int)
    requires i < |segs|
    requires forall j :: i <= j < |segs| ==> Convertible(segs[j], env)
    ensures segs[i].Quote? ==> RecordsFrom(segs, i, env, unit, offset) == RecordsFrom(segs, i + 1, env, unit, offset)
    ensures !segs[i].Quote? ==>
      RecordsFrom(segs, i, env, unit, offset) ==
      (if segs[i].Text? then [] else [EntityRecord(EntityBody(segs[i]), C(Piece(segs, i, env)), offset)])
      + RecordsFrom(segs, i + 1, env, unit, offset + Advance(Piece(segs, i, env), unit))
  {
  }

  /** The result text is the in-order concatenation of the pieces, and the
      records are those of `RecordsFrom` from offset 0. */
  lemma ContentPieces(segs: seq<Segment>, env: BotEnv, unit: OffsetUnit)
    requires forall j :: 0 <= j < |segs| ==> Convertible(segs[j], env)
    ensures TextToContentSpec(segs, env, unit).Success?
    ensures TextToContentSpec(segs, env, unit).value.text == TextFrom(segs, 0, env)
    ensures TextToContentSpec(segs, env, unit).value.entities == RecordsFrom(segs, 0, env, unit, 0)
  {
    RunPieces(INIT, segs, 0, env, unit);
    RunRecords(INIT, segs, 0, env, unit);
    JoinPieces(segs, 0, env);
    assert INIT.texts + PiecesFrom(segs, 0, env) == PiecesFrom(segs, 0, env);
  }

  /** A chain of plain texts converts to their concatenation, with no
      entity records. */
  lemma {:induction false} PlainTextsOnly(segs: seq<Segment>, i: nat, env: BotEnv, unit: OffsetUnit, offset: int)
    requires i <= |segs|
    requires forall j :: i <= j < |segs| ==> segs[j].Text?
    ensures RecordsFrom(segs, i, env, unit, offset) == []
    decreases |segs| - i
  {
    if i < |segs| {
      PlainTextsOnly(segs, i + 1, env, unit, offset + Advance(segs[i].text, unit));
    }
  }

  /** With every character below U+10000 the two ways of counting agree,
      so the source's records are the corrected ones. */
  lemma {:induction false} BmpOffsetsAgree(segs: seq<Segment>, i: nat, env: BotEnv, offset: int)
    requires i <= |segs|
    requires forall j :: i <= j < |segs| ==> Convertible(segs[j], env)
    requires forall j :: i <= j < |segs| && !segs[j].Quote? ==> C(Piece(segs, j, env)) == |Piece(segs, j, env)|
    ensures RecordsFrom(segs, i, env, CodePoints, offset) == RecordsFrom(segs, i, env, CodeUnits, offset)
    decreases |segs| - i
  {
    if i < |segs| {
      if segs[i].Quote? {
        BmpOffsetsAgree(segs, i + 1, env, offset);
      } else {
        BmpOffsetsAgree(segs, i + 1, env, offset + |Piece(segs, i, env)|);
      }
    }
  }

  /** The source's code-point offsets are wrong after an astral character:
      after "😊" (two code units) the mention of everyone is recorded at
      offset 1, inside the emoji, instead of 2. */
  lemma AstralOffsetAsWritten(env: BotEnv)
    ensures var segs := [Text("😊"), MentionedAll];
      && TextToContentSpec(segs, env, CodePoints).Success?
      && TextToContentSpec(segs, env, CodePoints).value.entities[0].offset == 1
      && TextToContentSpec(segs, env, CodeUnits).value.entities[0].offset == 2
      && C("😊") == 2
  {
    var segs := [Text("😊"), MentionedAll];
    UtilityExamples();
    ContentPieces(segs, env, CodePoints);
    ContentPieces(segs, env, CodeUnits);
  }
}
