/** Image segments and their message content (hertavilla/message/image.py). */
module ImageMsg {
  import opened Wrappers
  import opened Segments

  /** The `ValueError` "Parameter width and height are not both None or int". */
  datatype ImageError = SizeNotPaired

  /** Python truthiness of an optional int. */
  predicate TruthyInt(v: Option<int>) {
    v.Some? && v.value != 0
  }

  /** `Image(url, width, height, file_size)`: no size when both dimensions
      are omitted, a size when both are truthy, and `ValueError` for every
      other combination — one missing, or either of them 0. */
  function NewImage(url: string, width: Option<int>, height: Option<int>, fileSize: Option<int>): (r: Result<Segment, ImageError>)
    ensures r.Success? <==> (width.None? && height.None?) || (TruthyInt(width) && TruthyInt(height))
    ensures r.Failure? ==> r.error == SizeNotPaired
    ensures r.Success? ==> r.value.Image? && r.value.url == url && r.value.fileSize == fileSize
    ensures r.Success? ==> (r.value.size.None? <==> width.None? && height.None?)
    ensures r.Success? && r.value.size.Some? ==> r.value.size.value == Size(width.value, height.value)
  {
    if width.None? && height.None? then Success(Image(url, None, fileSize))
    else if TruthyInt(width) && TruthyInt(height) then Success(Image(url, Some(Size(width.value, height.value)), fileSize))
    else Failure(SizeNotPaired)
  }

  /** `ImageMsgContent`; an attribute the constructor does not set is None. */
  datatype ImageMsgContent = ImageMsgContent(url: string, size: Option<Size>, fileSize: Option<int>)

  /** `ImageMsgContent(url, size, file_size)`: `size` and `file_size` are
      set only when truthy. A size dict always has two keys, so it is
      truthy whenever present; a file size of 0 is dropped. */
  function NewImageMsgContent(url: string, size: Option<Size>, fileSize: Option<int>): (c: ImageMsgContent)
    ensures c.url == url
    ensures c.size == size
    ensures c.fileSize.Some? <==> TruthyInt(fileSize)
    ensures c.fileSize.Some? ==> c.fileSize == fileSize
  {
    ImageMsgContent(url, size, if TruthyInt(fileSize) then fileSize else None)
  }

  /** `ImageMsgContentInfo`: the dict `{"content": content}`. */
  datatype ImageMsgContentInfo = ImageMsgContentInfo(content: ImageMsgContent)

  /** `image_to_content`: the image's content, wrapped in the dict
      `{"content": ...}`. */
  function ImageToContent(image: Segment): (i: ImageMsgContentInfo)
    requires image.Image?
    ensures i.content.url == image.url && i.content.size == image.size
    ensures TruthyInt(image.fileSize) ==> i.content.fileSize == image.fileSize
    ensures !TruthyInt(image.fileSize) ==> i.content.fileSize.None?
  {
    ImageMsgContentInfo(NewImageMsgContent(image.url, image.size, image.fileSize))
  }

  /** An image built from its arguments carries its dimensions into the
      message content exactly when they were given, and its file size
      when that is nonzero. */
  lemma ContentOfNewImage(url: string, width: Option<int>, height: Option<int>, fileSize: Option<int>)
    requires NewImage(url, width, height, fileSize).Success?
    ensures var c := ImageToContent(NewImage(url, width, height, fileSize).value).content;
      && c.url == url
      && (c.size.Some? <==> width.Some?)
      && (c.size.Some? ==> c.size.value.width == width.value && c.size.value.height == height.value)
      && (c.fileSize.Some? <==> TruthyInt(fileSize))
  {
  }

  /** The text form of an image. */
  lemma ImageText(image: Segment, env: BotEnv)
    requires image.Image?
    ensures GetText(image, env) == Success("[图片]")
  {
  }
}
