/** The data-transfer objects of the post use cases and the two projections
    of a post onto them (`src/application/post/dtos.py`). */
module Dtos {
  import opened Wrappers
  import opened Domain

  datatype CreatePostInputDto = CreatePostInputDto(
    ownerUserId: int,
    contentType: string,
    textMd: Option<string>,
    telegramFileId: Option<string>,
    buttonsDsl: Option<string>)

  datatype CreatePostOutputDto = CreatePostOutputDto(uniqueKey: string, postId: PostId)

  /** A button as the presentation layer sees it: the style is the enum's
      string value. */
  datatype PostButtonDto = PostButtonDto(text: string, url: string, style: string)

  datatype PostListItemDto = PostListItemDto(
    id: PostId,
    uniqueKey: string,
    contentType: string,
    textPreview: Option<string>,
    createdAt: Timestamp)

  datatype PostDetailDto = PostDetailDto(
    id: PostId,
    uniqueKey: string,
    contentType: string,
    textMd: Option<string>,
    telegramFileId: Option<string>,
    buttons: seq<seq<PostButtonDto>>,
    createdAt: Timestamp)

  datatype PostListOutputDto = PostListOutputDto(items: seq<PostListItemDto>, total: int, page: int)

  /** `PostButtonDTO.pretty_style`: the Telegram name of a style, None for
      the default style and for any string that is not a style at all. */
  function PrettyStyle(style: string): (r: Option<string>)
    ensures r.Some? <==> style in {"green", "blue", "red"}
    ensures r.Some? ==> r.value in {"success", "primary", "danger"}
  {
    if style == "default" then None
    else if style == "green" then Some("success")
    else if style == "blue" then Some("primary")
    else if style == "red" then Some("danger")
    else None
  }

  /** The table `pretty_style` implements, style by style. */
  lemma PrettyStyleTable()
    ensures PrettyStyle(StyleValue(Default)) == None
    ensures PrettyStyle(StyleValue(Green)) == Some("success")
    ensures PrettyStyle(StyleValue(Blue)) == Some("primary")
    ensures PrettyStyle(StyleValue(Red)) == Some("danger")
  {
  }

  /** Distinct styles never share a Telegram name. */
  lemma PrettyStyleInjective(a: ButtonStyle, b: ButtonStyle)
    requires PrettyStyle(StyleValue(a)) == PrettyStyle(StyleValue(b))
    ensures a == b
  {
  }

  /** `text_md.value[:50]`: Python slicing stops at the end of the string. */
  function Preview(text: string): (p: string)
    ensures |p| == if |text| < 50 then |text| else 50
    ensures p <= text
  {
    if |text| < 50 then text else text[..50]
  }

  /** `post_to_list_item` */
  function PostToListItem(p: Post): (d: PostListItemDto)
    ensures d.textPreview.None? <==> p.textMd.None?
    ensures p.textMd.Some? ==> d.textPreview.value <= p.textMd.value &&
                               |d.textPreview.value| == if |p.textMd.value| < 50 then |p.textMd.value| else 50
    ensures ContentTypeFromValue(d.contentType) == Some(p.contentType)
    ensures d.id == p.id && d.uniqueKey == p.uniqueKey && d.createdAt == p.createdAt
  {
    ValuesRoundTrip(p.contentType, p.status, Default);
    PostListItemDto(
      p.id,
      p.uniqueKey,
      ContentTypeValue(p.contentType),
      if p.textMd.Some? then Some(Preview(p.textMd.value)) else None,
      p.createdAt)
  }

  function ButtonToDto(b: PostButton): PostButtonDto {
    PostButtonDto(b.text, b.url, StyleValue(b.style))
  }

  function RowToDto(row: seq<PostButton>): seq<PostButtonDto> {
    Map(ButtonToDto, row)
  }

  /** `post_to_detail` */
  function PostToDetail(p: Post): (d: PostDetailDto)
    ensures |d.buttons| == |p.buttons|
    ensures forall i :: 0 <= i < |p.buttons| ==> |d.buttons[i]| == |p.buttons[i]|
    ensures forall i, j :: 0 <= i < |p.buttons| && 0 <= j < |p.buttons[i]| ==>
              d.buttons[i][j].text == p.buttons[i][j].text &&
              d.buttons[i][j].url == p.buttons[i][j].url &&
              StyleFromValue(d.buttons[i][j].style) == Some(p.buttons[i][j].style)
    ensures d.textMd.Some? <==> p.textMd.Some?
    ensures d.textMd.Some? ==> d.textMd.value == p.textMd.value
    ensures d.telegramFileId.Some? <==> p.telegramFileId.Some?
    ensures d.telegramFileId.Some? ==> d.telegramFileId.value == p.telegramFileId.value
    ensures ContentTypeFromValue(d.contentType) == Some(p.contentType)
    ensures d.id == p.id && d.uniqueKey == p.uniqueKey && d.createdAt == p.createdAt
  {
    ValuesRoundTrip(p.contentType, p.status, Default);
    assert forall b: ButtonStyle :: StyleFromValue(StyleValue(b)) == Some(b) by {
      forall b: ButtonStyle ensures StyleFromValue(StyleValue(b)) == Some(b) {
        ValuesRoundTrip(p.contentType, p.status, b);
      }
    }
    PostDetailDto(
      p.id,
      p.uniqueKey,
      ContentTypeValue(p.contentType),
      if p.textMd.Some? then Some(p.textMd.value) else None,
      if p.telegramFileId.Some? then Some(p.telegramFileId.value) else None,
      Map(RowToDto, p.buttons),
      p.createdAt)
  }
}
