/** `MessageChain` (hertavilla/message/chain.py): a list of segments with
    its construction, `append`, `extend`, `+`, `+=`, the reflected `+`,
    `plaintext`, `get_text` and the choice of the message content type in
    `to_content_json`. */
module Chain {
  import opened Wrappers
  import opened Segments
  import opened ImageMsg
  import opened TextContent

  /** One element of an iterable handed to `extend`: a string or a segment. */
  datatype Item = StrItem(s: string) | SegItem(seg: Segment)

  /** What the constructor, `+`, `+=` and the reflected `+` are given:
      a string, a segment, an iterable, `None`, or a value of any other
      type. */
  datatype Operand = Str(s: string) | Seg(seg: Segment) | Many(items: seq<Item>) | NoneValue | Unsupported

  /** The `TypeError` of `+=` for an unsupported operand, and the one the
      iteration in `extend` raises when the constructor is given one. */
  datatype ChainError = UnsupportedType

  /** `append` stores a string as `Text`. */
  function AsSegment(x: Item): Segment {
    match x
    case StrItem(s) => Text(s)
    case SegItem(seg) => seg
  }

  /** The segments `extend` appends, one per item and in order. */
  function Segs(items: seq<Item>): (r: seq<Segment>)
    ensures |r| == |items|
    ensures forall i :: 0 <= i < |items| ==> r[i] == AsSegment(items[i])
  {
    if items == [] then [] else Segs(items[..|items| - 1]) + [AsSegment(items[|items| - 1])]
  }

  /** A chain's own segments, seen as the items of an iterable. */
  function ItemsOf(segs: seq<Segment>): (items: seq<Item>)
    ensures |items| == |segs|
    ensures forall i :: 0 <= i < |segs| ==> items[i] == SegItem(segs[i])
  {
    if segs == [] then [] else ItemsOf(segs[..|segs| - 1]) + [SegItem(segs[|segs| - 1])]
  }

  /** Iterating a chain's segments appends exactly those segments. */
  lemma SegsOfItems(segs: seq<Segment>)
    ensures Segs(ItemsOf(segs)) == segs
  {
  }

  /** The segments an operand stands for: `None` none, a string or a
      segment one, an iterable one per item. */
  function Converted(op: Operand): (r: seq<Segment>)
    requires !op.Unsupported?
    ensures op.NoneValue? ==> r == []
    ensures op.Str? ==> r == [Text(op.s)]
    ensures op.Seg? ==> r == [op.seg]
    ensures op.Many? ==> r == Segs(op.items)
  {
    match op
    case NoneValue => []
    case Str(s) => [Text(s)]
    case Seg(seg) => [seg]
    case Many(items) => Segs(items)
  }

  const MHY_TEXT: string := "MHY:Text"
  const MHY_IMAGE: string := "MHY:Image"
  const MHY_POST: string := "MHY:Post"

  /** The zero-width space that stands in for the text of an image-only
      message with several images. */
  const ZERO_WIDTH_SPACE: string := "\U{200B}"

  /** The message info `to_content_json` returns. `ImageInfo(i)` is an
      image's `{"content": ImageMsgContent}` sent as it is;
      `WrappedImageInfo(i)` is `ImageMsgContentInfo(content=i)`, that dict
      wrapped once more as `{"content": {"content": ImageMsgContent}}`. */
  datatype ContentInfo =
    | ImageInfo(image: ImageMsgContentInfo)
    | WrappedImageInfo(image: ImageMsgContentInfo)
    | PostInfo(postId: string)
    | TextInfo(info: TextMsgContentInfo)

  /** The image content under the message info's "content" key, if that
      key holds one rather than another dict. */
  function SentImage(c: ContentInfo): Option<ImageMsgContent> {
    if c.ImageInfo? then Some(c.image.content) else None
  }

  /** Why `to_content_json` raised: the chain is empty, or the conversion
      of its text entities raised. */
  datatype SelectError = EmptyMessage | TextFailed(error: TextError)

  // ---------------------------------------------------------------------
  // The partition of to_content_json
  // ---------------------------------------------------------------------

  /** The segments that are neither images nor posts, in order. */
  function TextLike(segs: seq<Segment>): seq<Segment> {
    if segs == [] then []
    else
      var last := segs[|segs| - 1];
      TextLike(segs[..|segs| - 1]) + (if last.Image? || last.Post? then [] else [last])
  }

  /** The message contents of the images, in order. */
  function ImagesIn(segs: seq<Segment>): seq<ImageMsgContentInfo> {
    if segs == [] then []
    else
      var last := segs[|segs| - 1];
      ImagesIn(segs[..|segs| - 1]) + (if last.Image? then [ImageToContent(last)] else [])
  }

  /** The post ids, in order. */
  function PostsIn(segs: seq<Segment>): seq<string> {
    if segs == [] then []
    else
      var last := segs[|segs| - 1];
      PostsIn(segs[..|segs| - 1]) + (if last.Post? then [last.postId] else [])
  }

  /** Every segment goes to exactly one of the three lists. */
  lemma {:induction false} PartitionSizes(segs: seq<Segment>)
    ensures |TextLike(segs)| + |ImagesIn(segs)| + |PostsIn(segs)| == |segs|
  {
    if segs != [] {
      PartitionSizes(segs[..|segs| - 1]);
    }
  }

  /** No text-like segment is left exactly when every segment is an image
      or a post. */
  lemma {:induction false} NoTextLike(segs: seq<Segment>)
    ensures TextLike(segs) == [] <==> forall i :: 0 <= i < |segs| ==> segs[i].Image? || segs[i].Post?
  {
    if segs != [] {
      var init := segs[..|segs| - 1];
      NoTextLike(init);
      assert forall i :: 0 <= i < |init| ==> init[i] == segs[i];
    }
  }

  /** Only images and posts, the image at k the only image: the images
      list holds just its content. */
  lemma {:induction false} OneImage(segs: seq<Segment>, k: nat)
    requires k < |segs| && segs[k].Image?
    requires forall i :: 0 <= i < |segs| && i != k ==> segs[i].Post?
    ensures ImagesIn(segs) == [ImageToContent(segs[k])]
  {
    var n := |segs| - 1;
    var init := segs[..n];
    if k < n {
      OneImage(init, k);
    } else {
      NoImages(init);
    }
  }

  /** Only posts: no images, and the last post id is that of the last
      segment. */
  lemma {:induction false} NoImages(segs: seq<Segment>)
    requires forall i :: 0 <= i < |segs| ==> segs[i].Post?
    ensures ImagesIn(segs) == []
    ensures segs != [] ==> PostsIn(segs) != [] && PostsIn(segs)[|PostsIn(segs)| - 1] == segs[|segs| - 1].postId
  {
    if segs != [] {
      NoImages(segs[..|segs| - 1]);
    }
  }

  /** Two images give at least two image contents. */
  lemma {:induction false} TwoImages(segs: seq<Segment>, j: nat, k: nat)
    requires j < k < |segs| && segs[j].Image? && segs[k].Image?
    ensures |ImagesIn(segs)| >= 2
  {
    var n := |segs| - 1;
    if k < n {
      TwoImages(segs[..n], j, k);
    } else {
      SomeImage(segs[..n], j);
    }
  }

  lemma {:induction false} SomeImage(segs: seq<Segment>, j: nat)
    requires j < |segs| && segs[j].Image?
    ensures |ImagesIn(segs)| >= 1
  {
    var n := |segs| - 1;
    if j < n {
      SomeImage(segs[..n], j);
    }
  }

  // ---------------------------------------------------------------------
  // The decision of to_content_json
  // ---------------------------------------------------------------------

  /** What `to_content_json` returns for the three lists: with no text-like
      segment, a single image is sent as an image (posts beside it are
      dropped), several images as a text holding a zero-width space, and
      otherwise the last post; with nothing at all it raises. A text-like
      segment makes it a text message of the text-like segments. The
      running offset counts code points, as `text_to_content` does. */
  function SelectContent(texts: seq<Segment>, images: seq<ImageMsgContentInfo>, posts: seq<string>, env: BotEnv): (r: Result<(ContentInfo, string), SelectError>)
    ensures r == Failure(EmptyMessage) <==> texts == [] && images == [] && posts == []
    ensures texts != [] ==> (r.Success? <==> TextToContentSpec(texts, env, CodePoints).Success?)
    ensures texts != [] && r.Success? ==> r.value == (TextInfo(TextToContentSpec(texts, env, CodePoints).value), MHY_TEXT)
    ensures texts == [] && |images| == 1 ==> r == Success((WrappedImageInfo(images[0]), MHY_IMAGE))
    ensures texts == [] && |images| >= 2 && r.Success? ==> r.value.1 == MHY_TEXT
    ensures texts == [] && images == [] && posts != [] ==> r == Success((PostInfo(posts[|posts| - 1]), MHY_POST))
  {
    if texts == [] then
      if images != [] then
        if |images| <= 1 then Success((WrappedImageInfo(images[0]), MHY_IMAGE))
        else
          match TextToContentSpec([Text(ZERO_WIDTH_SPACE)], env, CodePoints)
          case Failure(e) => Failure(TextFailed(e))
          case Success(c) => Success((TextInfo(c), MHY_TEXT))
      else if posts != [] then Success((PostInfo(posts[|posts| - 1]), MHY_POST))
      else Failure(EmptyMessage)
    else
      match TextToContentSpec(texts, env, CodePoints)
      case Failure(e) => Failure(TextFailed(e))
      case Success(c) => Success((TextInfo(c), MHY_TEXT))
  }

  /** `to_content_json` on a chain's segments. */
  function ContentJson(segs: seq<Segment>, env: BotEnv): Result<(ContentInfo, string), SelectError> {
    SelectContent(TextLike(segs), ImagesIn(segs), PostsIn(segs), env)
  }

  /** An empty chain is the only one `to_content_json` refuses as empty. */
  lemma EmptyRejected(segs: seq<Segment>, env: BotEnv)
    ensures ContentJson(segs, env) == Failure(EmptyMessage) <==> segs == []
  {
    PartitionSizes(segs);
  }

  /** Images and posts only, exactly one image: sent as that image, but
      with `image_to_content`'s dict wrapped a second time, so the
      message info's "content" key holds a dict and no image content. */
  lemma ImageChosen(segs: seq<Segment>, env: BotEnv, k: nat)
    requires k < |segs| && segs[k].Image?
    requires forall i :: 0 <= i < |segs| && i != k ==> segs[i].Post?
    ensures ContentJson(segs, env) == Success((WrappedImageInfo(ImageToContent(segs[k])), MHY_IMAGE))
    ensures SentImage(ContentJson(segs, env).value.0).None?
  {
    NoTextLike(segs);
    OneImage(segs, k);
  }

  /** `to_content_json` with the image's message info sent as
      `image_to_content` returned it, wrapped once; every other outcome is
      unchanged. */
  function ContentJsonIntended(segs: seq<Segment>, env: BotEnv): (r: Result<(ContentInfo, string), SelectError>)
    ensures r.Success? <==> ContentJson(segs, env).Success?
    ensures r.Success? ==> r.value.1 == ContentJson(segs, env).value.1
    ensures r.Success? && !ContentJson(segs, env).value.0.WrappedImageInfo? ==> r == ContentJson(segs, env)
    ensures r.Failure? ==> r == ContentJson(segs, env)
    ensures r.Success? ==> !r.value.0.WrappedImageInfo?
  {
    match ContentJson(segs, env)
    case Success((WrappedImageInfo(i), objectName)) => Success((ImageInfo(i), objectName))
    case other => other
  }

  /** With the single wrap, the one image's content, with its URL, size
      and file size, is what the message info's "content" key holds. */
  lemma ImageChosenIntended(segs: seq<Segment>, env: BotEnv, k: nat)
    requires k < |segs| && segs[k].Image?
    requires forall i :: 0 <= i < |segs| && i != k ==> segs[i].Post?
    ensures ContentJsonIntended(segs, env) == Success((ImageInfo(ImageToContent(segs[k])), MHY_IMAGE))
    ensures var sent := SentImage(ContentJsonIntended(segs, env).value.0);
      && sent.Some?
      && sent.value.url == segs[k].url
      && sent.value.size == segs[k].size
      && (sent.value.fileSize.Some? <==> TruthyInt(segs[k].fileSize))
  {
    ImageChosen(segs, env, k);
  }

  /** Images and posts only, at least two images: sent as a text message
      whose text is a zero-width space. */
  lemma ManyImagesAsText(segs: seq<Segment>, env: BotEnv, j: nat, k: nat)
    requires j < k < |segs| && segs[j].Image? && segs[k].Image?
    requires forall i :: 0 <= i < |segs| ==> segs[i].Image? || segs[i].Post?
    ensures ContentJson(segs, env).Success?
    ensures ContentJson(segs, env).value.1 == MHY_TEXT
    ensures ContentJson(segs, env).value.0.TextInfo? && ContentJson(segs, env).value.0.info.text == ZERO_WIDTH_SPACE
  {
    NoTextLike(segs);
    TwoImages(segs, j, k);
    ContentPieces([Text(ZERO_WIDTH_SPACE)], env, CodePoints);
  }

  /** Posts only: sent as the last post. */
  lemma LastPostChosen(segs: seq<Segment>, env: BotEnv)
    requires segs != []
    requires forall i :: 0 <= i < |segs| ==> segs[i].Post?
    ensures ContentJson(segs, env) == Success((PostInfo(segs[|segs| - 1].postId), MHY_POST))
  {
    NoTextLike(segs);
    NoImages(segs);
  }

  /** A segment that is neither an image nor a post makes it a text
      message, which fails exactly when some text-like segment is no text
      entity (a panel) or its `get_text` lookup fails. */
  lemma TextForced(segs: seq<Segment>, env: BotEnv, k: nat)
    requires k < |segs| && !segs[k].Image? && !segs[k].Post?
    ensures ContentJson(segs, env).Success? ==> ContentJson(segs, env).value.1 == MHY_TEXT
    ensures ContentJson(segs, env).Success? <==>
      forall i :: 0 <= i < |TextLike(segs)| ==> Convertible(TextLike(segs)[i], env)
  {
    NoTextLike(segs);
    RunSucceeds(INIT, TextLike(segs), 0, env, CodePoints);
  }

  // ---------------------------------------------------------------------
  // plaintext and get_text
  // ---------------------------------------------------------------------

  /** `plaintext`: the texts of the Text segments, joined in order. */
  function Plaintext(segs: seq<Segment>): (r: string)
    ensures (forall i :: 0 <= i < |segs| ==> !segs[i].Text?) ==> r == ""
    ensures |r| == TextsLength(segs)
  {
    if segs == [] then ""
    else Plaintext(segs[..|segs| - 1]) + (if segs[|segs| - 1].Text? then segs[|segs| - 1].text else "")
  }

  /** The total length of the Text segments' texts. */
  function TextsLength(segs: seq<Segment>): nat {
    if segs == [] then 0
    else TextsLength(segs[..|segs| - 1]) + (if segs[|segs| - 1].Text? then |segs[|segs| - 1].text| else 0)
  }

  /** The plain text of a concatenation is the concatenation of the plain
      texts. */
  lemma {:induction false} PlaintextAppend(a: seq<Segment>, b: seq<Segment>)
    ensures Plaintext(a + b) == Plaintext(a) + Plaintext(b)
    decreases |b|
  {
    if b != [] {
      var n := |b| - 1;
      assert (a + b)[..|a + b| - 1] == a + b[..n];
      assert (a + b)[|a + b| - 1] == b[n];
      PlaintextAppend(a, b[..n]);
    } else {
      assert a + b == a;
    }
  }

  /** A Text segment contributes its text, every other segment nothing. */
  lemma PlaintextSingle(s: Segment)
    ensures Plaintext([s]) == if s.Text? then s.text else ""
  {
    assert [s][..0] == [];
  }

  /** The text a segment adds in `get_text`: its own text, and a space
      after it unless it is a Text, an image or a post, or the last one. */
  function PieceOf(segs: seq<Segment>, i: nat, t: string): string
    requires i < |segs|
  {
    if segs[i].Text? || segs[i].Image? || segs[i].Post? then t else t + Space(segs, i)
  }

  /** `get_text` from index i on, with the text gathered so far. */
  function ChainTextFrom(acc: string, segs: seq<Segment>, i: nat, env: BotEnv): Result<string, SegmentError>
    requires i <= |segs|
    decreases |segs| - i
  {
    if i == |segs| then Success(acc)
    else
      match GetText(segs[i], env)
      case Failure(e) => Failure(e)
      case Success(t) => ChainTextFrom(acc + PieceOf(segs, i, t), segs, i + 1, env)
  }

  /** The string `get_text` returns for a chain. */
  function ChainText(segs: seq<Segment>, env: BotEnv): Result<string, SegmentError> {
    ChainTextFrom("", segs, 0, env)
  }

  /** `get_text` raises exactly when the chain holds a quote, a post, or a
      segment whose lookup fails. */
  lemma {:induction false} ChainTextFails(acc: string, segs: seq<Segment>, i: nat, env: BotEnv)
    requires i <= |segs|
    ensures ChainTextFrom(acc, segs, i, env).Failure? <==> exists j :: i <= j < |segs| && (segs[j].Quote? || segs[j].Post? || !Fetched(segs[j], env))
    decreases |segs| - i
  {
    if i < |segs| {
      match GetText(segs[i], env)
      case Failure(_) =>
      case Success(t) => ChainTextFails(acc + PieceOf(segs, i, t), segs, i + 1, env);
    }
  }

  /** For text entities without a quote, `get_text` gives the text that
      `text_to_content` builds: the same pieces and the same spaces. */
  lemma {:induction false} ChainTextIsContentText(acc: string, segs: seq<Segment>, i: nat, env: BotEnv)
    requires i <= |segs|
    requires forall j :: 0 <= j < |segs| ==> Convertible(segs[j], env) && !segs[j].Quote?
    ensures ChainTextFrom(acc, segs, i, env) == Success(acc + TextFrom(segs, i, env))
    decreases |segs| - i
  {
    if i < |segs| {
      var t := GetText(segs[i], env).value;
      assert PieceOf(segs, i, t) == Piece(segs, i, env);
      ChainTextIsContentText(acc + PieceOf(segs, i, t), segs, i + 1, env);
      assert acc + PieceOf(segs, i, t) + TextFrom(segs, i + 1, env) == acc + TextFrom(segs, i, env);
    } else {
      assert acc + "" == acc;
    }
  }

  /** A chain of Text segments only: `get_text` and `plaintext` agree. */
  lemma {:induction false} ChainTextOfTexts(acc: string, segs: seq<Segment>, i: nat, env: BotEnv)
    requires i <= |segs|
    requires forall j :: 0 <= j < |segs| ==> segs[j].Text?
    ensures ChainTextFrom(acc, segs, i, env) == Success(acc + Plaintext(segs[i..]))
    decreases |segs| - i
  {
    if i < |segs| {
      var t := segs[i].text;
      ChainTextOfTexts(acc + t, segs, i + 1, env);
      assert segs[i..] == [segs[i]] + segs[i + 1..];
      PlaintextAppend([segs[i]], segs[i + 1..]);
      PlaintextSingle(segs[i]);
      assert acc + t + Plaintext(segs[i + 1..]) == acc + Plaintext(segs[i..]);
    } else {
      assert segs[i..] == [] && acc + "" == acc;
    }
  }

  /** The chain after n turns of `for segment in obj: self.append(segment)`
      when `obj` is the chain itself: Python's list iterator reads index k
      of the list as it is at that turn, so every turn appends a copy of
      the segment at its own index, when there is one. */
  function SelfExtendAfter(segs: seq<Segment>, n: nat): (r: seq<Segment>)
    ensures |segs| > 0 ==> |r| == |segs| + n
    ensures segs <= r
  {
    if n == 0 then segs
    else
      var t := SelfExtendAfter(segs, n - 1);
      if n - 1 < |t| then t + [t[n - 1]] else t
  }

  /** `c.extend(c)` (and `c += c`) as written: on a non-empty chain the
      iterator finds another item at every turn, so the loop never ends,
      and what it appends repeats the chain over and over; on an empty
      chain it ends at once. */
  lemma {:induction false} SelfExtendNeverEnds(segs: seq<Segment>, n: nat)
    ensures |segs| > 0 ==> n < |SelfExtendAfter(segs, n)|
    ensures forall k :: |segs| <= k < |SelfExtendAfter(segs, n)| ==>
      SelfExtendAfter(segs, n)[k] == SelfExtendAfter(segs, n)[k - |segs|]
    ensures segs == [] ==> SelfExtendAfter(segs, n) == []
    decreases n
  {
    if n > 0 {
      SelfExtendNeverEnds(segs, n - 1);
      var t := SelfExtendAfter(segs, n - 1);
      if n - 1 < |t| {
        var u := SelfExtendAfter(segs, n);
        assert u == t + [t[n - 1]];
        forall k | |segs| <= k < |u|
          ensures u[k] == u[k - |segs|]
        {
          if k == |t| {
            assert n - 1 == k - |segs|;
          }
        }
      }
    }
  }

  /** `c += c` as meant, with the operand's items read before the chain
      grows (as the built-in `list.extend` does for itself): the chain
      once more after itself. `IAdd` takes its operand by value in this
      way. */
  lemma SelfAddIntended(segs: seq<Segment>)
    ensures segs + Converted(Many(ItemsOf(segs))) == segs + segs
  {
    SegsOfItems(segs);
  }

  // ---------------------------------------------------------------------
  // The chain object
  // ---------------------------------------------------------------------

  class MessageChain {
    var segments: seq<Segment>

    /** `MessageChain(message)`: empty for `None`, one segment for a
        string or a segment, the items of an iterable otherwise. */
    constructor (message: Operand)
      requires !message.Unsupported?
      ensures segments == Converted(message)
    {
      segments := [];
      new;
      match message
      case NoneValue =>
      case Str(s) => Append(StrItem(s));
      case Seg(seg) => Append(SegItem(seg));
      case Many(items) => Extend(items);
    }

    /** `append`: a string is stored as `Text`. */
    method Append(x: Item)
      modifies this
      ensures segments == old(segments) + [AsSegment(x)]
    {
      segments := segments + [AsSegment(x)];
    }

    /** `extend`: appends every item in order. */
    method Extend(items: seq<Item>)
      modifies this
      ensures segments == old(segments) + Segs(items)
    {
      for i := 0 to |items|
        invariant segments == old(segments) + Segs(items[..i])
      {
        assert items[..i + 1][..i] == items[..i];
        Append(items[i]);
      }
      assert items[..|items|] == items;
    }

    /** `copy`: a new chain with the same segments. */
    method Copy() returns (c: MessageChain)
      ensures fresh(c) && c.segments == segments
    {
      c := new MessageChain(Many(ItemsOf(segments)));
      SegsOfItems(segments);
    }

    /** `+=`: a string, a segment or an iterable is appended; anything else
        (including `None`) raises `TypeError` and leaves the chain as it
        was. */
    method IAdd(other: Operand) returns (r: Outcome<ChainError>)
      modifies this
      ensures r.Pass? <==> other.Str? || other.Seg? || other.Many?
      ensures r.Pass? ==> segments == old(segments) + Converted(other)
      ensures r.Fail? ==> r.error == UnsupportedType && segments == old(segments)
    {
      match other
      case Str(s) => Append(StrItem(s)); r := Pass;
      case Seg(seg) => Append(SegItem(seg)); r := Pass;
      case Many(items) => Extend(items); r := Pass;
      case NoneValue => r := Fail(UnsupportedType);
      case Unsupported => r := Fail(UnsupportedType);
    }

    /** `+`: a copy of this chain with `other` added; this chain is not
        changed. */
    method Add(other: Operand) returns (r: Result<MessageChain, ChainError>)
      ensures r.Success? <==> other.Str? || other.Seg? || other.Many?
      ensures r.Success? ==> fresh(r.value) && r.value.segments == segments + Converted(other)
      ensures r.Failure? ==> r.error == UnsupportedType
    {
      var result := Copy();
      var o := result.IAdd(other);
      if o.Fail? {
        return Failure(o.error);
      }
      r := Success(result);
    }

    /** The reflected `+`: a chain built from `other`, then this chain's
        segments after it. `None` builds an empty chain, so `None + chain`
        is a copy; an operand the constructor cannot iterate raises. */
    method RAdd(other: Operand) returns (r: Result<MessageChain, ChainError>)
      ensures r.Success? <==> !other.Unsupported?
      ensures r.Success? ==> fresh(r.value) && r.value.segments == Converted(other) + segments
      ensures r.Failure? ==> r.error == UnsupportedType
    {
      if other.Unsupported? {
        return Failure(UnsupportedType);
      }
      var result := new MessageChain(other);
      r := result.Add(Many(ItemsOf(segments)));
      SegsOfItems(segments);
    }

    /** `get_text(bot)`. */
    method GetChainText(env: BotEnv) returns (r: Result<string, SegmentError>)
      ensures r == ChainText(segments, env)
    {
      var texts: seq<string> := [];
      var i := 0;
      while i < |segments|
        invariant 0 <= i <= |segments|
        invariant ChainTextFrom(Join(texts), segments, i, env) == ChainText(segments, env)
        decreases |segments| - i
      {
        var x := segments[i];
        var space := if i == |segments| - 1 then "" else " ";
        var got := GetText(x, env);
        if got.Failure? {
          return Failure(got.error);
        }
        var text := got.value;
        if !(x.Text? || x.Image? || x.Post?) {
          text := text + space;
        }
        JoinSnoc(texts, text);
        texts := texts + [text];
        i := i + 1;
      }
      r := Success(Join(texts));
    }

    /** `to_content_json(bot)`: the partition loop, then the decision. */
    method ToContentJson(env: BotEnv) returns (r: Result<(ContentInfo, string), SelectError>)
      ensures r == ContentJson(segments, env)
    {
      var textEntities: seq<Segment> := [];
      var image: seq<ImageMsgContentInfo> := [];
      var posts: seq<string> := [];
      for i := 0 to |segments|
        invariant textEntities == TextLike(segments[..i])
        invariant image == ImagesIn(segments[..i])
        invariant posts == PostsIn(segments[..i])
      {
        var segment := segments[i];
        assert segments[..i + 1][..i] == segments[..i];
        if segment.Image? {
          image := image + [ImageToContent(segment)];
        } else if segment.Post? {
          posts := posts + [segment.postId];
        } else {
          textEntities := textEntities + [segment];
        }
      }
      assert segments[..|segments|] == segments;
      if textEntities == [] {
        if image != [] {
          if |image| <= 1 {
            return Success((WrappedImageInfo(image[0]), MHY_IMAGE));
          }
          var c := TextToContent([Text(ZERO_WIDTH_SPACE)], env, CodePoints);
          if c.Failure? {
            return Failure(TextFailed(c.error));
          }
          return Success((TextInfo(c.value), MHY_TEXT));
        }
        if posts != [] {
          return Success((PostInfo(posts[|posts| - 1]), MHY_POST));
        }
        return Failure(EmptyMessage);
      }
      var c := TextToContent(textEntities, env, CodePoints);
      if c.Failure? {
        return Failure(TextFailed(c.error));
      }
      r := Success((TextInfo(c.value), MHY_TEXT));
    }
  }
}
