/** The post entity and its value objects (`src/domain/post/vo.py` and
    `src/domain/post/entity.py`).  The length bounds the value objects
    declare are subset types; the `Make…` functions stand for their
    constructors, which raise on a value outside the bounds. */
module Domain {
  import opened Wrappers

  /** `UniqueKey`: exactly 8 characters. */
  type UniqueKey = s: string | |s| == 8 witness "aaaaaaaa"

  /** `TextMd`: 1 to 1024 characters. */
  type TextMd = s: string | 1 <= |s| <= 1024 witness "a"

  /** `TelegramFileId`: 1 to 512 characters. */
  type TelegramFileId = s: string | 1 <= |s| <= 512 witness "a"

  function MakeUniqueKey(s: string): (r: Option<UniqueKey>)
    ensures r.Some? <==> |s| == 8
    ensures r.Some? ==> r.value == s
  {
    if |s| == 8 then Some(s) else None
  }

  function MakeTextMd(s: string): (r: Option<TextMd>)
    ensures r.Some? <==> 1 <= |s| <= 1024
    ensures r.Some? ==> r.value == s
  {
    if 1 <= |s| <= 1024 then Some(s) else None
  }

  function MakeTelegramFileId(s: string): (r: Option<TelegramFileId>)
    ensures r.Some? <==> 1 <= |s| <= 512
    ensures r.Some? ==> r.value == s
  {
    if 1 <= |s| <= 512 then Some(s) else None
  }

  datatype ContentType = Text | Photo | Video | Gif

  function ContentTypeValue(t: ContentType): string {
    match t
    case Text => "text"
    case Photo => "photo"
    case Video => "video"
    case Gif => "gif"
  }

  /** `ContentType(s)`: None where the enum raises ValueError. */
  function ContentTypeFromValue(s: string): (r: Option<ContentType>)
    ensures r.Some? <==> s in {"text", "photo", "video", "gif"}
    ensures r.Some? ==> ContentTypeValue(r.value) == s
  {
    if s == "text" then Some(Text)
    else if s == "photo" then Some(Photo)
    else if s == "video" then Some(Video)
    else if s == "gif" then Some(Gif)
    else None
  }

  datatype PostStatus = Active | Deleted

  function StatusValue(s: PostStatus): string {
    match s
    case Active => "active"
    case Deleted => "deleted"
  }

  function StatusFromValue(s: string): (r: Option<PostStatus>)
    ensures r.Some? <==> s in {"active", "deleted"}
    ensures r.Some? ==> StatusValue(r.value) == s
  {
    if s == "active" then Some(Active)
    else if s == "deleted" then Some(Deleted)
    else None
  }

  datatype ButtonStyle = Default | Green | Blue | Red

  function StyleValue(s: ButtonStyle): string {
    match s
    case Default => "default"
    case Green => "green"
    case Blue => "blue"
    case Red => "red"
  }

  /** `ButtonStyle(s)`; the set of accepted values is `VALID_STYLES` of the
      button parser. */
  function StyleFromValue(s: string): (r: Option<ButtonStyle>)
    ensures r.Some? <==> s in {"default", "green", "blue", "red"}
    ensures r.Some? ==> StyleValue(r.value) == s
  {
    if s == "default" then Some(Default)
    else if s == "green" then Some(Green)
    else if s == "blue" then Some(Blue)
    else if s == "red" then Some(Red)
    else None
  }

  /** Every enum member is read back from its own value. */
  lemma ValuesRoundTrip(t: ContentType, st: PostStatus, b: ButtonStyle)
    ensures ContentTypeFromValue(ContentTypeValue(t)) == Some(t)
    ensures StatusFromValue(StatusValue(st)) == Some(st)
    ensures StyleFromValue(StyleValue(b)) == Some(b)
  {
  }

  /** `UserId` wraps the integer id of a user. */
  datatype UserId = UserId(value: int)

  /** `uuid.UUID`, as the number it encodes. */
  type PostId = nat

  /** `datetime`, as a count of microseconds. */
  type Timestamp = int

  datatype PostButton = PostButton(text: string, url: string, style: ButtonStyle)

  datatype Post = Post(
    id: PostId,
    ownerUserId: UserId,
    uniqueKey: UniqueKey,
    contentType: ContentType,
    status: PostStatus,
    createdAt: Timestamp,
    updatedAt: Timestamp,
    textMd: Option<TextMd>,
    telegramFileId: Option<TelegramFileId>,
    buttons: seq<seq<PostButton>>,
    deletedAt: Option<Timestamp>)
}
