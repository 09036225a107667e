/** `PostMapper` (`src/infrastructure/db/mappers/post.py`): between the
    domain post and its table row, whose buttons column holds JSON rows of
    `{"text", "url", "style"}` objects. */
module PostMapper {
  import opened Wrappers
  import opened Domain

  /** A JSON button object, as a Python dict of strings. */
  type ButtonJson = map<string, string>

  /** The owner column: an int as loaded, or already a `UserId`. */
  datatype OwnerColumn = OwnerInt(n: int) | OwnerUserId(u: UserId)

  /** `PostModel`; `buttons` is None for a SQL NULL. */
  datatype PostModel = PostModel(
    id: PostId,
    ownerUserId: OwnerColumn,
    uniqueKey: string,
    contentType: string,
    textMd: Option<string>,
    telegramFileId: Option<string>,
    buttons: Option<seq<seq<ButtonJson>>>,
    status: string,
    createdAt: Timestamp,
    updatedAt: Timestamp,
    deletedAt: Option<Timestamp>)

  /** What `to_domain` raises: a KeyError for a missing key of a button
      object, a ValueError from an enum or a value object. */
  datatype MapError =
    | MissingKey(key: string)
    | BadStyle(style: string)
    | BadUniqueKey(key: string)
    | BadContentType(contentType: string)
    | BadStatus(status: string)
    | BadTextMd
    | BadTelegramFileId

  function ButtonToJson(b: PostButton): ButtonJson {
    map["text" := b.text, "url" := b.url, "style" := StyleValue(b.style)]
  }

  function RowToJson(row: seq<PostButton>): seq<ButtonJson> {
    Map(ButtonToJson, row)
  }

  /** `PostMapper.to_model` */
  function ToModel(p: Post): (m: PostModel)
    ensures m.buttons.Some? && |m.buttons.value| == |p.buttons|
    ensures forall i :: 0 <= i < |p.buttons| ==> |m.buttons.value[i]| == |p.buttons[i]|
    ensures forall i, j :: 0 <= i < |p.buttons| && 0 <= j < |p.buttons[i]| ==>
              m.buttons.value[i][j].Keys == {"text", "url", "style"} &&
              m.buttons.value[i][j]["text"] == p.buttons[i][j].text &&
              m.buttons.value[i][j]["url"] == p.buttons[i][j].url &&
              m.buttons.value[i][j]["style"] == StyleValue(p.buttons[i][j].style)
    ensures m.textMd.Some? <==> p.textMd.Some?
    ensures m.telegramFileId.Some? <==> p.telegramFileId.Some?
    ensures m.textMd.Some? ==> m.textMd.value == p.textMd.value && m.textMd.value != []
    ensures m.telegramFileId.Some? ==> m.telegramFileId.value == p.telegramFileId.value && m.telegramFileId.value != []
    ensures m.uniqueKey == p.uniqueKey && |m.uniqueKey| == 8
    ensures m.contentType == ContentTypeValue(p.contentType) && ContentTypeFromValue(m.contentType) == Some(p.contentType)
    ensures m.status == StatusValue(p.status) && StatusFromValue(m.status) == Some(p.status)
    ensures m.ownerUserId == OwnerInt(p.ownerUserId.value) && OwnerFromColumn(m.ownerUserId) == p.ownerUserId
    ensures m.id == p.id && m.createdAt == p.createdAt && m.updatedAt == p.updatedAt &&
            m.deletedAt == p.deletedAt
  {
    ValuesRoundTrip(p.contentType, p.status, Default);
    PostModel(
      p.id,
      OwnerInt(p.ownerUserId.value),
      p.uniqueKey,
      ContentTypeValue(p.contentType),
      if p.textMd.Some? then Some(p.textMd.value) else None,
      if p.telegramFileId.Some? then Some(p.telegramFileId.value) else None,
      Some(Map(RowToJson, p.buttons)),
      StatusValue(p.status),
      p.createdAt,
      p.updatedAt,
      p.deletedAt)
  }

  /** `btn["text"]`, `btn["url"]`, then `ButtonStyle(btn["style"])`, in
      that order. */
  function ButtonFromJson(btn: ButtonJson): (r: Result<PostButton, MapError>)
    ensures r.Ok? <==> "text" in btn && "url" in btn && "style" in btn && StyleFromValue(btn["style"]).Some?
    ensures r.Ok? ==> r.value.text == btn["text"] && r.value.url == btn["url"] &&
                      StyleValue(r.value.style) == btn["style"]
    ensures "text" !in btn ==> r == Err(MissingKey("text"))
    ensures "text" in btn && "url" !in btn ==> r == Err(MissingKey("url"))
    ensures "text" in btn && "url" in btn && "style" !in btn ==> r == Err(MissingKey("style"))
    ensures "text" in btn && "url" in btn && "style" in btn && StyleFromValue(btn["style"]).None? ==>
              r == Err(BadStyle(btn["style"]))
  {
    if "text" !in btn then Err(MissingKey("text"))
    else if "url" !in btn then Err(MissingKey("url"))
    else if "style" !in btn then Err(MissingKey("style"))
    else
      match StyleFromValue(btn["style"])
      case None => Err(BadStyle(btn["style"]))
      case Some(s) => Ok(PostButton(btn["text"], btn["url"], s))
  }

  function RowFromJson(row: seq<ButtonJson>): Result<seq<PostButton>, MapError> {
    Collect(Map(ButtonFromJson, row))
  }

  /** The buttons comprehension: `model.buttons or []`, row by row, the
      first failing button deciding the error. */
  function ButtonsFromJson(buttons: Option<seq<seq<ButtonJson>>>): Result<seq<seq<PostButton>>, MapError> {
    var rows := if buttons.Some? then buttons.value else [];
    Collect(Map(RowFromJson, rows))
  }

  function OwnerFromColumn(c: OwnerColumn): UserId {
    match c
    case OwnerInt(n) => UserId(n)
    case OwnerUserId(u) => u
  }

  /** `if model.text_md`: NULL and the empty string are both absent. */
  function Present(s: Option<string>): Option<string> {
    if s.Some? && s.value != [] then s else None
  }

  /** `PostMapper.to_domain`, raising in the order Python evaluates: the
      buttons, then the keyword arguments of `Post` left to right. */
  function ToDomain(m: PostModel): (r: Result<Post, MapError>)
    ensures ButtonsFromJson(m.buttons).Err? ==> r == Err(ButtonsFromJson(m.buttons).error)
    ensures r.Ok? <==>
              ButtonsFromJson(m.buttons).Ok? && |m.uniqueKey| == 8 &&
              ContentTypeFromValue(m.contentType).Some? && StatusFromValue(m.status).Some? &&
              (Present(m.textMd).None? || |m.textMd.value| <= 1024) &&
              (Present(m.telegramFileId).None? || |m.telegramFileId.value| <= 512)
    ensures r.Ok? ==>
              r.value.id == m.id && r.value.ownerUserId == OwnerFromColumn(m.ownerUserId) &&
              r.value.uniqueKey == m.uniqueKey && ContentTypeValue(r.value.contentType) == m.contentType &&
              StatusValue(r.value.status) == m.status && r.value.createdAt == m.createdAt &&
              r.value.updatedAt == m.updatedAt && r.value.deletedAt == m.deletedAt &&
              r.value.textMd == Present(m.textMd) && r.value.telegramFileId == Present(m.telegramFileId) &&
              r.value.buttons == ButtonsFromJson(m.buttons).value
  {
    match ButtonsFromJson(m.buttons)
    case Err(e) => Err(e)
    case Ok(buttons) =>
      var owner := OwnerFromColumn(m.ownerUserId);
      match MakeUniqueKey(m.uniqueKey)
      case None => Err(BadUniqueKey(m.uniqueKey))
      case Some(key) =>
        match ContentTypeFromValue(m.contentType)
        case None => Err(BadContentType(m.contentType))
        case Some(ct) =>
          match StatusFromValue(m.status)
          case None => Err(BadStatus(m.status))
          case Some(st) =>
            var text := Present(m.textMd);
            var file := Present(m.telegramFileId);
            if text.Some? && MakeTextMd(text.value).None? then Err(BadTextMd)
            else if file.Some? && MakeTelegramFileId(file.value).None? then Err(BadTelegramFileId)
            else
              Ok(Post(m.id, owner, key, ct, st, m.createdAt, m.updatedAt,
                      if text.Some? then MakeTextMd(text.value) else None,
                      if file.Some? then MakeTelegramFileId(file.value) else None,
                      buttons, m.deletedAt))
  }

  /** A button object is read back as the button it was written from. */
  lemma ButtonRoundTrip(b: PostButton)
    ensures ButtonFromJson(ButtonToJson(b)) == Ok(b)
  {
    ValuesRoundTrip(Text, Active, b.style);
  }

  lemma {:induction false} RowRoundTrip(row: seq<PostButton>)
    ensures RowFromJson(RowToJson(row)) == Ok(row)
  {
    var rs := Map(ButtonFromJson, RowToJson(row));
    forall i | 0 <= i < |rs| ensures rs[i] == Ok(row[i]) {
      ButtonRoundTrip(row[i]);
    }
    CollectOk(rs);
    assert Collect(rs).value == row;
  }

  lemma {:induction false} ButtonsRoundTrip(buttons: seq<seq<PostButton>>)
    ensures ButtonsFromJson(Some(Map(RowToJson, buttons))) == Ok(buttons)
  {
    var rs := Map(RowFromJson, Map(RowToJson, buttons));
    forall i | 0 <= i < |rs| ensures rs[i] == Ok(buttons[i]) {
      RowRoundTrip(buttons[i]);
    }
    CollectOk(rs);
    assert Collect(rs).value == buttons;
  }

  /** A post survives a trip through its table row unchanged. */
  lemma {:induction false} RoundTrip(p: Post)
    ensures ToDomain(ToModel(p)) == Ok(p)
  {
    ButtonsRoundTrip(p.buttons);
    ValuesRoundTrip(p.contentType, p.status, Default);
  }

  /** A NULL buttons column reads as no buttons. */
  lemma NullButtonsEmpty()
    ensures ButtonsFromJson(None) == Ok([])
  {
  }

  /** An empty text or file id in the row is read back as absent. */
  lemma EmptyStringsAbsent(m: PostModel)
    requires ToDomain(m).Ok?
    ensures m.textMd == Some("") ==> ToDomain(m).value.textMd.None?
    ensures m.telegramFileId == Some("") ==> ToDomain(m).value.telegramFileId.None?
  {
  }

  /** The owner is wrapped only when it is not a `UserId` already. */
  lemma OwnerWrapping(n: int, u: UserId)
    ensures OwnerFromColumn(OwnerInt(n)) == UserId(n)
    ensures OwnerFromColumn(OwnerUserId(u)) == u
  {
  }

  /** Every button of the buttons column is read back with its own text,
      url and style, in its place. */
  lemma {:induction false} ButtonsFromJsonShape(buttons: seq<seq<ButtonJson>>)
    requires ButtonsFromJson(Some(buttons)).Ok?
    ensures var rows := ButtonsFromJson(Some(buttons)).value;
            |rows| == |buttons| &&
            forall i :: 0 <= i < |buttons| ==>
              |rows[i]| == |buttons[i]| &&
              forall j :: 0 <= j < |buttons[i]| ==>
                "text" in buttons[i][j] && "url" in buttons[i][j] && "style" in buttons[i][j] &&
                rows[i][j].text == buttons[i][j]["text"] && rows[i][j].url == buttons[i][j]["url"] &&
                StyleValue(rows[i][j].style) == buttons[i][j]["style"]
  {
    var rs := Map(RowFromJson, buttons);
    CollectOk(rs);
    forall i | 0 <= i < |buttons|
      ensures Collect(Map(ButtonFromJson, buttons[i])).Ok?
      ensures var row := Collect(Map(ButtonFromJson, buttons[i])).value;
              |row| == |buttons[i]| &&
              forall j :: 0 <= j < |buttons[i]| ==>
                "text" in buttons[i][j] && "url" in buttons[i][j] && "style" in buttons[i][j] &&
                row[j].text == buttons[i][j]["text"] && row[j].url == buttons[i][j]["url"] &&
                StyleValue(row[j].style) == buttons[i][j]["style"]
    {
      assert rs[i].Ok?;
      CollectOk(Map(ButtonFromJson, buttons[i]));
    }
  }
}
