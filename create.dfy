/** `CreatePostInteractor` (`src/application/post/create.py`): validates the
    input, parses the buttons, draws a key that is not taken, writes the post
    once and commits.  The new id (`uuid.uuid4()`) and the clock
    (`datetime.now(UTC)`) are parameters. */
module CreatePost {
  import opened Wrappers
  import opened Domain
  import opened ButtonDsl
  import opened Dtos
  import opened PostRepo
  import Keygen

  const MaxAttempts: nat := 10

  datatype CreateError =
    | UnknownContentType(value: string)
    | InvalidTextMd
    | InvalidTelegramFileId
    | TextRequired
    | FileRequired(contentType: ContentType)
    | ButtonsInvalid(dsl: DslError)
    | KeyGenerationFailed
    | Repo(repo: RepoError)

  /** The messages the interactor raises with. */
  function ErrorMessage(e: CreateError): Option<string> {
    match e
    case TextRequired => Some("Text content is required for text posts")
    case FileRequired(ct) => Some("File is required for " + ContentTypeValue(ct) + " posts")
    case KeyGenerationFailed => Some("Failed to generate unique key after multiple attempts")
    case _ => None
  }

  /** The content of a post once its input has been checked. */
  datatype Content = Content(contentType: ContentType, textMd: Option<TextMd>, telegramFileId: Option<TelegramFileId>)

  /** `if data.text_md:` — absent and empty are the same. */
  function Given(s: Option<string>): Option<string> {
    if s.Some? && s.value != [] then s else None
  }

  /** Lines 32-52: the content type first, then the value objects, then the
      content the type requires. */
  function ValidateContent(data: CreatePostInputDto): (r: Result<Content, CreateError>)
    ensures ContentTypeFromValue(data.contentType).None? ==> r == Err(UnknownContentType(data.contentType))
    ensures r.Ok? ==> ContentTypeValue(r.value.contentType) == data.contentType
    ensures r.Ok? ==> (r.value.textMd.Some? <==> Given(data.textMd).Some?) &&
                      (r.value.textMd.Some? ==> r.value.textMd.value == data.textMd.value)
    ensures r.Ok? ==> (r.value.telegramFileId.Some? <==> Given(data.telegramFileId).Some?) &&
                      (r.value.telegramFileId.Some? ==> r.value.telegramFileId.value == data.telegramFileId.value)
    ensures r.Ok? && r.value.contentType == Text ==> r.value.textMd.Some?
    ensures r.Ok? && r.value.contentType != Text ==> r.value.telegramFileId.Some?
    ensures r.Ok? <==>
              ContentTypeFromValue(data.contentType).Some? &&
              (Given(data.textMd).None? || |data.textMd.value| <= 1024) &&
              (Given(data.telegramFileId).None? || |data.telegramFileId.value| <= 512) &&
              (data.contentType == "text" ==> Given(data.textMd).Some?) &&
              (data.contentType != "text" ==> Given(data.telegramFileId).Some?)
    ensures ContentTypeFromValue(data.contentType).Some? && Given(data.textMd).Some? &&
            |data.textMd.value| > 1024 ==>
              r == Err(InvalidTextMd)
    ensures ContentTypeFromValue(data.contentType).Some? && (Given(data.textMd).None? || |data.textMd.value| <= 1024) &&
            Given(data.telegramFileId).Some? && |data.telegramFileId.value| > 512 ==>
              r == Err(InvalidTelegramFileId)
  {
    match ContentTypeFromValue(data.contentType)
    case None => Err(UnknownContentType(data.contentType))
    case Some(ct) =>
      var text := Given(data.textMd);
      var file := Given(data.telegramFileId);
      if text.Some? && MakeTextMd(text.value).None? then Err(InvalidTextMd)
      else if file.Some? && MakeTelegramFileId(file.value).None? then Err(InvalidTelegramFileId)
      else if ct == Text && text.None? then Err(TextRequired)
      else if ct != Text && file.None? then Err(FileRequired(ct))
      else Ok(Content(ct,
                      if text.Some? then MakeTextMd(text.value) else None,
                      if file.Some? then MakeTelegramFileId(file.value) else None))
  }

  function ToPostButton(b: ParsedButton): PostButton {
    PostButton(b.text, b.url, b.style)
  }

  function RowToPostButtons(row: Row): seq<PostButton> {
    Map(ToPostButton, row)
  }

  /** Lines 55-61: no DSL (or an empty one) means no buttons. */
  function ButtonsOf(dsl: Option<string>): (r: Result<seq<seq<PostButton>>, DslError>)
    ensures Given(dsl).None? ==> r == Ok([])
    ensures Given(dsl).Some? && Parse(dsl.value).Err? ==> r == Err(Parse(dsl.value).error)
    ensures Given(dsl).Some? ==> (r.Ok? <==> Parse(dsl.value).Ok?)
    ensures r.Ok? && Given(dsl).Some? ==>
              var rows := Parse(dsl.value).value;
              |r.value| == |rows| &&
              forall i :: 0 <= i < |rows| ==>
                |r.value[i]| == |rows[i]| &&
                forall j :: 0 <= j < |rows[i]| ==>
                  r.value[i][j] == PostButton(rows[i][j].text, rows[i][j].url, rows[i][j].style)
  {
    if Given(dsl).None? then Ok([])
    else
      match Parse(dsl.value)
      case Err(e) => Err(e)
      case Ok(rows) => Ok(Map(RowToPostButtons, rows))
  }

  /** The post lines 66-78 build. */
  function NewPost(c: Content, buttons: seq<seq<PostButton>>, owner: int, key: UniqueKey, id: PostId, now: Timestamp): Post {
    Post(id, UserId(owner), key, c.contentType, Active, now, now, c.textMd, c.telegramFileId, buttons, None)
  }

  /** `_generate_unique_key`: up to MaxAttempts keys, the first one not taken
      wins.  `tried` lists the keys drawn. */
  method GenerateUniqueKey(store: PostStore) returns (r: Result<UniqueKey, CreateError>, ghost tried: seq<string>)
    ensures 1 <= |tried| <= MaxAttempts
    ensures forall i :: 0 <= i < |tried| - 1 ==> store.KeyExists(tried[i])
    ensures r.Ok? ==> r.value == tried[|tried| - 1] && !store.KeyExists(r.value)
    ensures r.Err? ==> r == Err(KeyGenerationFailed) && |tried| == MaxAttempts && store.KeyExists(tried[|tried| - 1])
    ensures forall i :: 0 <= i < |tried| ==> Keygen.IsGeneratedKey(tried[i])
  {
    tried := [];
    var attempt := 0;
    while attempt < MaxAttempts
      invariant attempt == |tried| <= MaxAttempts
      invariant forall i :: 0 <= i < |tried| ==> store.KeyExists(tried[i])
      invariant forall i :: 0 <= i < |tried| ==> Keygen.IsGeneratedKey(tried[i])
    {
      var key := Keygen.GenerateUniqueKey();
      tried := tried + [key];
      if !store.KeyExists(key) {
        return Ok(key), tried;
      }
      attempt := attempt + 1;
    }
    r := Err(KeyGenerationFailed);
  }

  /** Lines 32-61: the content checks, then the buttons DSL through the
      parser loop. */
  method CheckInput(data: CreatePostInputDto) returns (r: Result<(Content, seq<seq<PostButton>>), CreateError>)
    ensures ValidateContent(data).Err? ==> r == Err(ValidateContent(data).error)
    ensures ValidateContent(data).Ok? && ButtonsOf(data.buttonsDsl).Err? ==>
              r == Err(ButtonsInvalid(ButtonsOf(data.buttonsDsl).error))
    ensures r.Ok? <==> ValidateContent(data).Ok? && ButtonsOf(data.buttonsDsl).Ok?
    ensures r.Ok? ==> r.value == (ValidateContent(data).value, ButtonsOf(data.buttonsDsl).value)
  {
    var v := ValidateContent(data);
    if v.Err? {
      return Err(v.error);
    }
    var buttons: seq<seq<PostButton>> := [];
    if Given(data.buttonsDsl).Some? {
      var parsed := ParseButtonsDsl(data.buttonsDsl.value);
      if parsed.Err? {
        return Err(ButtonsInvalid(parsed.error));
      }
      buttons := Map(RowToPostButtons, parsed.value);
    }
    assert ButtonsOf(data.buttonsDsl) == Ok(buttons);
    r := Ok((v.value, buttons));
  }

  /** Lines 63-86: draw a free key, write the post once and commit.  The
      write fails only when every drawn key was taken or the id is already
      in the table (the owner is taken to exist); then nothing is
      written. */
  method WritePost(store: PostStore, c: Content, buttons: seq<seq<PostButton>>, owner: int, newId: PostId, now: Timestamp)
    returns (r: Result<CreatePostOutputDto, CreateError>, ghost tried: seq<string>)
    requires store.Valid()
    modifies store
    ensures store.Valid()
    ensures r.Err? ==> store.rows == old(store.rows) && store.events == old(store.events)
    ensures r.Err? ==> r == Err(KeyGenerationFailed) || r == Err(Repo(IntegrityError))
    ensures r == Err(KeyGenerationFailed) ==>
              |tried| == MaxAttempts && forall k :: k in tried ==> HasKey(old(store.rows), k)
    ensures r == Err(Repo(IntegrityError)) ==> HasId(old(store.rows), newId)
    ensures r.Ok? ==>
              tried != [] && r.value.uniqueKey == tried[|tried| - 1] && !HasId(old(store.rows), newId) &&
              Keygen.IsGeneratedKey(r.value.uniqueKey) && r.value.postId == newId &&
              (forall p :: p in old(store.rows) ==> p.uniqueKey != r.value.uniqueKey) &&
              var post := NewPost(c, buttons, owner, r.value.uniqueKey, newId, now);
              store.rows == old(store.rows) + [post] &&
              store.events == old(store.events) + [Inserted(post), Committed]
  {
    var key;
    key, tried := GenerateUniqueKey(store);
    if key.Err? {
      assert forall i :: 0 <= i < |tried| ==> store.KeyExists(tried[i]);
      return Err(key.error), tried;
    }
    var post := NewPost(c, buttons, owner, key.value, newId, now);
    var created := store.CreatePost(post);
    if created.Err? {
      return Err(Repo(created.error)), tried;
    }
    store.Commit();
    r := Ok(CreatePostOutputDto(created.value.uniqueKey, created.value.id));
  }

  /** `CreatePostInteractor.__call__`.  Nothing is written unless every
      check passed and a free key was found; then the post is written once
      and committed.  `tried` lists the keys drawn.  Once the input checks
      pass, the call fails only when every drawn key was taken or the new
      id is already in the table (the owner is taken to exist). */
  method Execute(store: PostStore, data: CreatePostInputDto, newId: PostId, now: Timestamp)
    returns (r: Result<CreatePostOutputDto, CreateError>, ghost tried: seq<string>)
    requires store.Valid()
    modifies store
    ensures store.Valid()
    ensures ValidateContent(data).Err? ==> r == Err(ValidateContent(data).error)
    ensures ValidateContent(data).Ok? && ButtonsOf(data.buttonsDsl).Err? ==>
              r == Err(ButtonsInvalid(ButtonsOf(data.buttonsDsl).error))
    ensures r.Err? ==> store.rows == old(store.rows) && store.events == old(store.events)
    ensures r.Ok? ==>
              ValidateContent(data).Ok? && ButtonsOf(data.buttonsDsl).Ok? &&
              Keygen.IsGeneratedKey(r.value.uniqueKey) && r.value.postId == newId &&
              (forall p :: p in old(store.rows) ==> p.uniqueKey != r.value.uniqueKey) &&
              var post := NewPost(ValidateContent(data).value, ButtonsOf(data.buttonsDsl).value,
                                  data.ownerUserId, r.value.uniqueKey, newId, now);
              store.rows == old(store.rows) + [post] &&
              store.events == old(store.events) + [Inserted(post), Committed]
    ensures r.Ok? ==> tried != [] && r.value.uniqueKey == tried[|tried| - 1] && !HasId(old(store.rows), newId)
    ensures ValidateContent(data).Ok? && ButtonsOf(data.buttonsDsl).Ok? && r.Err? ==>
              (r == Err(KeyGenerationFailed) && |tried| == MaxAttempts &&
               forall k :: k in tried ==> HasKey(old(store.rows), k)) ||
              (r == Err(Repo(IntegrityError)) && HasId(old(store.rows), newId))
  {
    var checked := CheckInput(data);
    if checked.Err? {
      return Err(checked.error), [];
    }
    r, tried := WritePost(store, checked.value.0, checked.value.1, data.ownerUserId, newId, now);
  }

  /** A created post is active and was created and updated at the same
      instant. */
  lemma NewPostIsFresh(c: Content, buttons: seq<seq<PostButton>>, owner: int, key: UniqueKey, id: PostId, now: Timestamp)
    ensures var p := NewPost(c, buttons, owner, key, id, now);
            p.status == Active && p.createdAt == p.updatedAt && p.deletedAt.None? &&
            PostRepo.First(ActiveWithKey([p], key)) == Some(p)
  {
    var p := NewPost(c, buttons, owner, key, id, now);
    assert [p][1..] == [];
  }

  /** A text post needs text; a media post needs a file; an unknown content
      type fails before anything else is looked at. */
  lemma ValidationOrder(data: CreatePostInputDto)
    ensures ContentTypeFromValue(data.contentType).None? ==> ValidateContent(data) == Err(UnknownContentType(data.contentType))
    ensures data.contentType == "text" && Given(data.textMd).None? &&
            (Given(data.telegramFileId).None? || |data.telegramFileId.value| <= 512) ==>
              ValidateContent(data) == Err(TextRequired)
    ensures data.contentType in {"photo", "video", "gif"} && Given(data.telegramFileId).None? &&
            (Given(data.textMd).None? || |data.textMd.value| <= 1024) ==>
              ValidateContent(data) == Err(FileRequired(ContentTypeFromValue(data.contentType).value))
  {
  }
}
