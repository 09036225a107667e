/** The post wizard (`src/presentation/bot/routers/post_wizard.py`, with the
    states of `src/presentation/bot/states/post_wizard.py`): a finite-state
    conversation whose FSM state and data dictionary the handlers update.
    Messages to the user are the replies the handlers return. */
module Wizard {
  import opened Wrappers
  import opened Domain
  import opened ButtonDsl
  import opened Dtos
  import opened PostRepo
  import opened Markups
  import CreatePost
  import Keygen

  datatype WizardState = ChoosingType | CollectingContent | CollectingButtons

  /** A value of the FSM data dictionary: a string or None. */
  datatype Value = Str(s: string) | Null

  /** The parts of an incoming message the wizard reads: its text, its
      HTML rendering (empty when there is neither text nor caption), the file
      ids of its photo sizes, smallest first, and the file ids of a video or
      an animation. */
  datatype Message = Message(
    text: Option<string>,
    htmlText: string,
    photo: seq<string>,
    video: Option<string>,
    animation: Option<string>)

  /** What a handler answers; `NotHandled` when its filter does not match
      the current state, `Raised` when it fails with an exception. */
  datatype Reply =
    | NotHandled
    | Raised
    | ChooseTypePrompt
    | ContentPrompt(contentType: string)
    | WrongContentType(expected: string)
    | TextTooLong
    | AskForButtons
    | InvalidDsl
    | DslRejected(message: string)
    | ShowPreview(buttons: Option<Keyboard>)
    | NothingSent
    | Saved(uniqueKey: string)
    | InternalError
    | MainMenu

  const MaxTextLength: int := 1024

  /** Lines 95-139: the text and file id a message supplies for the chosen
      content type, or the answer that refuses it. */
  function ContentOf(contentType: Value, msg: Message): (r: Result<(Value, Value), Reply>)
    ensures contentType == Str("text") ==>
              (r.Ok? <==> msg.text.Some? && msg.text.value != [] && |msg.text.value| <= MaxTextLength &&
                          |msg.htmlText| <= MaxTextLength) &&
              (r.Ok? ==> r.value == (Str(msg.htmlText), Null))
    ensures contentType == Str("photo") ==>
              (r.Ok? <==> msg.photo != [] && |msg.htmlText| <= MaxTextLength) &&
              (r.Ok? ==> r.value == (Str(msg.htmlText), Str(msg.photo[|msg.photo| - 1])))
    ensures contentType == Str("video") ==>
              (r.Ok? <==> msg.video.Some? && |msg.htmlText| <= MaxTextLength) &&
              (r.Ok? ==> r.value == (Str(msg.htmlText), Str(msg.video.value)))
    ensures contentType == Str("gif") ==>
              (r.Ok? <==> msg.animation.Some? && |msg.htmlText| <= MaxTextLength) &&
              (r.Ok? ==> r.value == (Str(msg.htmlText), Str(msg.animation.value)))
    ensures r.Err? ==> r.error.WrongContentType? || r.error == TextTooLong
    ensures contentType == Str("text") && (msg.text.None? || msg.text.value == []) ==>
              r == Err(WrongContentType("btn-text"))
    ensures contentType == Str("photo") && msg.photo == [] ==> r == Err(WrongContentType("btn-photo"))
    ensures contentType == Str("video") && msg.video.None? ==> r == Err(WrongContentType("btn-video"))
    ensures contentType == Str("gif") && msg.animation.None? ==> r == Err(WrongContentType("btn-gif"))
    ensures contentType == Str("text") && msg.text.Some? && msg.text.value != [] && r.Err? ==> r == Err(TextTooLong)
    ensures contentType == Str("photo") && msg.photo != [] && r.Err? ==> r == Err(TextTooLong)
    ensures contentType == Str("video") && msg.video.Some? && r.Err? ==> r == Err(TextTooLong)
    ensures contentType == Str("gif") && msg.animation.Some? && r.Err? ==> r == Err(TextTooLong)
    ensures contentType !in {Str("text"), Str("photo"), Str("video"), Str("gif")} ==> r == Ok((Null, Null))
  {
    if contentType == Str("text") then
      if msg.text.None? || msg.text.value == [] then Err(WrongContentType("btn-text"))
      else if |msg.text.value| > MaxTextLength then Err(TextTooLong)
      else CaptionChecked(msg.htmlText, Null)
    else if contentType == Str("photo") then
      if msg.photo == [] then Err(WrongContentType("btn-photo"))
      else CaptionChecked(msg.htmlText, Str(msg.photo[|msg.photo| - 1]))
    else if contentType == Str("video") then
      if msg.video.None? then Err(WrongContentType("btn-video"))
      else CaptionChecked(msg.htmlText, Str(msg.video.value))
    else if contentType == Str("gif") then
      if msg.animation.None? then Err(WrongContentType("btn-gif"))
      else CaptionChecked(msg.htmlText, Str(msg.animation.value))
    else Ok((Null, Null))
  }

  /** Lines 136-139: the stored text may not exceed the limit either. */
  function CaptionChecked(html: string, file: Value): (r: Result<(Value, Value), Reply>)
    ensures r.Ok? <==> |html| <= MaxTextLength
    ensures r.Ok? ==> r.value == (Str(html), file)
    ensures r.Err? ==> r.error == TextTooLong
  {
    if html != [] && |html| > MaxTextLength then Err(TextTooLong) else Ok((Str(html), file))
  }

  /** `_STYLE_MAP` */
  function StyleMap(style: ButtonStyle): Option<string> {
    match style
    case Default => None
    case Green => Some("success")
    case Blue => Some("primary")
    case Red => Some("danger")
  }

  /** The preview and the published post name every style alike. */
  lemma StyleMapIsPrettyStyle(style: ButtonStyle)
    ensures StyleMap(style) == PrettyStyle(StyleValue(style))
  {
  }

  function PreviewButton(b: ParsedButton): InlineButton {
    InlineButton(Plain(b.text), OpenUrl(b.url, StyleMap(b.style)))
  }

  /** `_build_preview_buttons_keyboard` */
  function PreviewKeyboard(dsl: Option<string>): (r: Result<Option<Keyboard>, DslError>)
    ensures CreatePost.Given(dsl).None? ==> r == Ok(None)
    ensures CreatePost.Given(dsl).Some? ==> (r.Ok? <==> Parse(dsl.value).Ok?)
  {
    if CreatePost.Given(dsl).None? then Ok(None)
    else
      match Parse(dsl.value)
      case Err(e) => Err(e)
      case Ok(rows) => Ok(Some(Map((row: Row) => Map(PreviewButton, row), rows)))
  }

  /** The preview shows the keyboard the saved post will have, as long as
      the DSL gives at least one row. */
  lemma PreviewMatchesPublished(dsl: string)
    requires dsl != [] && Parse(dsl).Ok? && Parse(dsl).value != []
    ensures PreviewKeyboard(Some(dsl)) ==
              Ok(InlineKeyboardOf(Map(RowToDto, CreatePost.ButtonsOf(Some(dsl)).value)))
  {
    var rows: seq<Row> := Parse(dsl).value;
    var saved: seq<seq<PostButton>> := Map(CreatePost.RowToPostButtons, rows);
    assert CreatePost.ButtonsOf(Some(dsl)) == Ok(saved);
    var dtos: seq<seq<PostButtonDto>> := Map(RowToDto, saved);
    var published: Keyboard := InlineKeyboardOf(dtos).value;
    var preview: Keyboard := Map((row: Row) => Map(PreviewButton, row), rows);
    assert PreviewKeyboard(Some(dsl)) == Ok(Some(preview));
    forall i | 0 <= i < |rows| ensures preview[i] == published[i] {
      PreviewRow(rows[i]);
      assert dtos[i] == RowToDto(CreatePost.RowToPostButtons(rows[i]));
    }
    assert preview == published;
  }

  /** One row of the preview is the row the saved post shows. */
  lemma PreviewRow(row: Row)
    ensures Map(PreviewButton, row) == Map(LinkButton, RowToDto(CreatePost.RowToPostButtons(row)))
  {
    var saved := CreatePost.RowToPostButtons(row);
    forall j | 0 <= j < |row|
      ensures PreviewButton(row[j]) == LinkButton(RowToDto(saved)[j])
    {
      StyleMapIsPrettyStyle(row[j].style);
      assert saved[j] == PostButton(row[j].text, row[j].url, row[j].style);
    }
  }

  /** A DSL of blank lines is accepted with no rows: the preview shows an
      empty keyboard while the published post has none. */
  lemma BlankDslPreview(dsl: string)
    requires dsl != [] && Parse(dsl) == Ok([])
    ensures PreviewKeyboard(Some(dsl)) == Ok(Some([]))
    ensures InlineKeyboardOf(Map(RowToDto, CreatePost.ButtonsOf(Some(dsl)).value)).None?
  {
  }

  /** `_show_preview` sends the preview for a text post, and for a photo,
      video or GIF post that has a file id; for anything else it sends
      nothing. */
  predicate PreviewSent(data: map<string, Value>) {
    "content_type" in data &&
    (data["content_type"] == Str("text") ||
     ((data["content_type"] == Str("photo") || data["content_type"] == Str("video") ||
       data["content_type"] == Str("gif")) &&
      "telegram_file_id" in data && data["telegram_file_id"].Str? && data["telegram_file_id"].s != []))
  }

  function ValueOrNone(v: Option<Value>): Option<string> {
    if v.Some? && v.value.Str? then Some(v.value.s) else None
  }

  /** The `CreatePostInputDTO` that `confirm_post` builds from the data
      dictionary, or None when there is no content type to give it: a
      missing key raises `KeyError`, and None is no content type either. */
  function InputOf(data: map<string, Value>, ownerUserId: int): (r: Option<CreatePostInputDto>)
    ensures r.Some? <==> "content_type" in data && data["content_type"].Str?
    ensures r.Some? ==>
              r.value.ownerUserId == ownerUserId && r.value.contentType == data["content_type"].s &&
              (r.value.textMd.Some? <==> "text_md" in data && data["text_md"].Str?) &&
              (r.value.telegramFileId.Some? <==> "telegram_file_id" in data && data["telegram_file_id"].Str?) &&
              (r.value.buttonsDsl.Some? <==> "buttons_dsl" in data && data["buttons_dsl"].Str?)
    ensures r.Some? ==>
              r.value.textMd == (if "text_md" in data && data["text_md"].Str? then Some(data["text_md"].s) else None) &&
              r.value.telegramFileId ==
                (if "telegram_file_id" in data && data["telegram_file_id"].Str? then Some(data["telegram_file_id"].s) else None) &&
              r.value.buttonsDsl == (if "buttons_dsl" in data && data["buttons_dsl"].Str? then Some(data["buttons_dsl"].s) else None)
  {
    if "content_type" in data && data["content_type"].Str? then
      Some(CreatePostInputDto(
        ownerUserId,
        data["content_type"].s,
        ValueOrNone(if "text_md" in data then Some(data["text_md"]) else None),
        ValueOrNone(if "telegram_file_id" in data then Some(data["telegram_file_id"]) else None),
        ValueOrNone(if "buttons_dsl" in data then Some(data["buttons_dsl"]) else None)))
    else None
  }

  class PostWizard {
    /** None once the FSM context is cleared. */
    var state: Option<WizardState>
    var data: map<string, Value>

    constructor ()
      ensures state.None? && data == map[]
    {
      state := None;
      data := map[];
    }

    /** `start_wizard`: whatever was collected before is dropped. */
    method StartWizard() returns (reply: Reply)
      modifies this
      ensures state == Some(ChoosingType) && data == map[] && reply == ChooseTypePrompt
    {
      data := map[];
      state := None;
      state := Some(ChoosingType);
      reply := ChooseTypePrompt;
    }

    /** `choose_type`, registered for the `choosing_type` state only. */
    method ChooseType(contentType: string) returns (reply: Reply)
      modifies this
      ensures old(state) != Some(ChoosingType) ==>
                reply == NotHandled && state == old(state) && data == old(data)
      ensures old(state) == Some(ChoosingType) ==>
                reply == ContentPrompt(contentType) && state == Some(CollectingContent) &&
                data == old(data)["content_type" := Str(contentType)]
    {
      if state != Some(ChoosingType) {
        return NotHandled;
      }
      data := data["content_type" := Str(contentType)];
      state := Some(CollectingContent);
      reply := ContentPrompt(contentType);
    }

    /** `collect_content`: a message that does not fit the chosen type is
      answered and changes nothing; one that fits is stored and the wizard
      moves on to the buttons. */
    method CollectContent(msg: Message) returns (reply: Reply)
      modifies this
      ensures old(state) != Some(CollectingContent) ==>
                reply == NotHandled && state == old(state) && data == old(data)
      ensures old(state) == Some(CollectingContent) && "content_type" !in old(data) ==>
                reply == Raised && state == old(state) && data == old(data)
      ensures old(state) == Some(CollectingContent) && "content_type" in old(data) ==>
                var c := ContentOf(old(data)["content_type"], msg);
                (c.Err? ==> reply == c.error && state == old(state) && data == old(data)) &&
                (c.Ok? ==> reply == AskForButtons && state == Some(CollectingButtons) &&
                           data == old(data)["text_md" := c.value.0]["telegram_file_id" := c.value.1])
    {
      if state != Some(CollectingContent) {
        return NotHandled;
      }
      if "content_type" !in data {
        return Raised;
      }
      var contentType := data["content_type"];
      var textMd := Null;
      var fileId := Null;
      if contentType == Str("text") {
        if msg.text.None? || msg.text.value == [] {
          return WrongContentType("btn-text");
        }
        if |msg.text.value| > MaxTextLength {
          return TextTooLong;
        }
        textMd := Str(msg.htmlText);
      } else if contentType == Str("photo") {
        if msg.photo == [] {
          return WrongContentType("btn-photo");
        }
        fileId := Str(msg.photo[|msg.photo| - 1]);
        textMd := Str(msg.htmlText);
      } else if contentType == Str("video") {
        if msg.video.None? {
          return WrongContentType("btn-video");
        }
        fileId := Str(msg.video.value);
        textMd := Str(msg.htmlText);
      } else if contentType == Str("gif") {
        if msg.animation.None? {
          return WrongContentType("btn-gif");
        }
        fileId := Str(msg.animation.value);
        textMd := Str(msg.htmlText);
      }
      if textMd.Str? && textMd.s != [] && |textMd.s| > MaxTextLength {
        return TextTooLong;
      }
      data := data["text_md" := textMd]["telegram_file_id" := fileId];
      state := Some(CollectingButtons);
      reply := AskForButtons;
    }

    /** `skip_buttons`: no DSL, and the preview is shown; showing it needs
      the content type. */
    method SkipButtons() returns (reply: Reply)
      modifies this
      ensures state == old(state)
      ensures old(state) != Some(CollectingButtons) ==> reply == NotHandled && data == old(data)
      ensures old(state) == Some(CollectingButtons) ==>
                data == old(data)["buttons_dsl" := Null] &&
                reply == (if "content_type" !in old(data) then Raised
                          else if PreviewSent(data) then ShowPreview(None)
                          else NothingSent)
    {
      if state != Some(CollectingButtons) {
        return NotHandled;
      }
      data := data["buttons_dsl" := Null];
      reply := PreviewReply(None);
    }

    /** `collect_buttons`: the DSL is stored only when it parses, and the
      state never changes here. */
    method CollectButtons(text: Option<string>) returns (reply: Reply)
      modifies this
      ensures state == old(state)
      ensures old(state) != Some(CollectingButtons) ==> reply == NotHandled && data == old(data)
      ensures old(state) == Some(CollectingButtons) && CreatePost.Given(text).None? ==>
                reply == InvalidDsl && data == old(data)
      ensures old(state) == Some(CollectingButtons) && CreatePost.Given(text).Some? ==>
                (Parse(text.value).Err? ==>
                   reply == DslRejected(ButtonDsl.ErrorMessage(Parse(text.value).error)) && data == old(data)) &&
                (Parse(text.value).Ok? ==>
                   data == old(data)["buttons_dsl" := Str(text.value)] &&
                   reply == (if "content_type" !in old(data) then Raised
                             else if PreviewSent(data) then ShowPreview(PreviewKeyboard(text).value)
                             else NothingSent))
    {
      if state != Some(CollectingButtons) {
        return NotHandled;
      }
      if text.None? || text.value == [] {
        return InvalidDsl;
      }
      var parsed := ParseButtonsDsl(text.value);
      if parsed.Err? {
        return DslRejected(ButtonDsl.ErrorMessage(parsed.error));
      }
      data := data["buttons_dsl" := Str(text.value)];
      reply := PreviewReply(text);
    }

    /** `_show_preview`: the preview needs the content type, shows the
      keyboard of the stored DSL, and is sent only for a content type and
      file id it knows how to show. */
    method PreviewReply(dsl: Option<string>) returns (reply: Reply)
      requires PreviewKeyboard(dsl).Ok?
      ensures "content_type" !in data ==> reply == Raised
      ensures "content_type" in data && PreviewSent(data) ==> reply == ShowPreview(PreviewKeyboard(dsl).value)
      ensures "content_type" in data && !PreviewSent(data) ==> reply == NothingSent
    {
      if "content_type" !in data {
        return Raised;
      }
      var contentType := data["content_type"];
      var fileId := if "telegram_file_id" in data then data["telegram_file_id"] else Null;
      var kb := PreviewKeyboard(dsl).value;
      if fileId.Str? && fileId.s != [] && contentType == Str("photo") {
        reply := ShowPreview(kb);
      } else if fileId.Str? && fileId.s != [] && contentType == Str("video") {
        reply := ShowPreview(kb);
      } else if fileId.Str? && fileId.s != [] && contentType == Str("gif") {
        reply := ShowPreview(kb);
      } else if contentType == Str("text") {
        reply := ShowPreview(kb);
      } else {
        reply := NothingSent;
      }
    }

    /** `confirm_post`: the collected data is handed to the create use case;
      whether it succeeds or raises, the FSM context is cleared.  Any
      failure of the use case is answered with the internal-error text. */
    method ConfirmPost(store: PostStore, ownerUserId: int, newId: PostId, now: Timestamp)
      returns (reply: Reply, ghost tried: seq<string>)
      requires store.Valid()
      modifies this, store
      ensures state.None? && data == map[]
      ensures store.Valid()
      ensures reply.Saved? || reply == InternalError
      ensures reply == InternalError ==> store.rows == old(store.rows) && store.events == old(store.events)
      ensures InputOf(old(data), ownerUserId).None? ==> reply == InternalError
      ensures InputOf(old(data), ownerUserId).Some? ==>
                var input := InputOf(old(data), ownerUserId).value;
                (CreatePost.ValidateContent(input).Err? ==> reply == InternalError) &&
                (CreatePost.ButtonsOf(input.buttonsDsl).Err? ==> reply == InternalError)
      ensures reply.Saved? ==>
                InputOf(old(data), ownerUserId).Some? &&
                var input := InputOf(old(data), ownerUserId).value;
                CreatePost.ValidateContent(input).Ok? && CreatePost.ButtonsOf(input.buttonsDsl).Ok? &&
                Keygen.IsGeneratedKey(reply.uniqueKey) &&
                (forall p :: p in old(store.rows) ==> p.uniqueKey != reply.uniqueKey) &&
                var post := CreatePost.NewPost(CreatePost.ValidateContent(input).value,
                                               CreatePost.ButtonsOf(input.buttonsDsl).value,
                                               ownerUserId, reply.uniqueKey, newId, now);
                store.rows == old(store.rows) + [post] &&
                store.events == old(store.events) + [Inserted(post), Committed]
      ensures reply.Saved? ==> tried != [] && reply.uniqueKey == tried[|tried| - 1]
      ensures reply == InternalError && InputOf(old(data), ownerUserId).Some? &&
              CreatePost.ValidateContent(InputOf(old(data), ownerUserId).value).Ok? &&
              CreatePost.ButtonsOf(InputOf(old(data), ownerUserId).value.buttonsDsl).Ok? ==>
                (|tried| == CreatePost.MaxAttempts &&
                 forall k :: k in tried ==> HasKey(old(store.rows), k)) ||
                HasId(old(store.rows), newId)
    {
      tried := [];
      var input := InputOf(data, ownerUserId);
      var created: Result<CreatePostOutputDto, CreatePost.CreateError> := Err(CreatePost.KeyGenerationFailed);
      if input.Some? {
        created, tried := CreatePost.Execute(store, input.value, newId, now);
      }
      data := map[];
      state := None;
      if created.Err? {
        return InternalError, tried;
      }
      reply := Saved(created.value.uniqueKey);
    }

    /** `restart_wizard`: back to choosing a type with nothing kept. */
    method RestartWizard() returns (reply: Reply)
      modifies this
      ensures state == Some(ChoosingType) && data == map[] && reply == ChooseTypePrompt
    {
      data := map[];
      state := None;
      state := Some(ChoosingType);
      reply := ChooseTypePrompt;
    }

    /** `cancel_wizard` */
    method CancelWizard() returns (reply: Reply)
      modifies this
      ensures state.None? && data == map[] && reply == MainMenu
    {
      data := map[];
      state := None;
      reply := MainMenu;
    }
  }
}
