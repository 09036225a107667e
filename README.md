# postbot: the post core, modelled in Dafny

This project models the post feature of postbot, a Telegram bot that stores
posts and lets their owners publish them through inline queries. A post has
text, or a photo, video or GIF, and an optional keyboard of link buttons.
The model covers these parts:

- the button DSL parser, `[Text + URL + style]` per button and one row per
  line (`ButtonDsl`, with the Python string operations it relies on in
  `PyStr`);
- the value objects and the post entity (`Domain`);
- the DTOs and their projections (`Dtos`);
- the ORM mapper (`PostMapper`);
- the SQL repository, as a class over an in-memory table plus a log of
  writes and commits (`PostRepo.PostStore`);
- the key generator (`Keygen`);
- the create, delete, search and list interactors (`CreatePost`,
  `DeletePost`, `SearchByKey`, `UserPosts`);
- the data-dependent keyboards (`Markups`);
- the post wizard, as a class holding the FSM state and data dictionary
  that its handlers update (`Wizard.PostWizard`).

`Wrappers` holds `Option`, `Result`, a `Collect` that stops at the first
error (how a comprehension behaves when an element raises), and `Map` and
`Filter`.

Exceptions are modelled as `Err` values, and the error order is the order
in which Python evaluates. The parser loop (`ParseButtonsDsl`) and the
inline keyboard builder (`BuildInlineKeyboardFromButtons`) are methods
proved against the functions `Parse` and `InlineKeyboardOf`. The "my
posts" keyboard builder, the key-generation loops and the wizard handlers
are methods whose `ensures` state the keyboard, the key, or the new state
and reply directly. Repository writes change the `rows` and `events`
fields of `PostStore`, and a commit is an event.

The button parser accepts a button exactly as `button_dsl.py` reads it:

- no `https://` is prepended to a URL;
- style words are not translated through an alias table;
- any scheme `urlparse` accepts is allowed, not only http and https;
- a host containing spaces is not rejected;
- the unknown-style message lists only "default, green, red", although
  `blue` is accepted.

## Model

| member | source | states |
|---|---|---|
| Wrappers.Collect | src/infrastructure/db/mappers/post.py:17-27 | a comprehension that succeeds has one result per element |
| Wrappers.CollectOk | src/infrastructure/db/mappers/post.py:17-27 | the comprehension succeeds iff every element does, and then each result is that element's value |
| Wrappers.CollectErr | src/infrastructure/db/mappers/post.py:17-27 | a failure is the error of the first failing element, and every element before it succeeded |
| Wrappers.Filter | src/infrastructure/db/repos/post.py:47-54 | a `WHERE` clause keeps only rows that satisfy it, and never more rows than there were |
| Wrappers.FilterMultiset | src/infrastructure/db/repos/post.py:47-54 | a `WHERE` clause keeps every satisfying row exactly as often as it occurs, and nothing else |
| Wrappers.FilterIn | src/infrastructure/db/repos/post.py:47-54 | a row is in the result iff it is in the table and satisfies the clause |
| PyStr.Strip | src/application/post/button_dsl.py:34-35 | `str.strip` never lengthens its input |
| PyStr.StripEmpty | src/application/post/button_dsl.py:36-37 | a line strips to empty iff it is all white space |
| PyStr.StripSlice | src/application/post/button_dsl.py:34-35 | the stripped text is a slice of the input with only white space cut on either side |
| PyStr.StripTwice | src/application/post/button_dsl.py:46 | stripping is idempotent |
| PyStr.Lower | src/application/post/button_dsl.py:65 | lower-casing keeps the length and maps every character on its own |
| PyStr.Split | src/application/post/button_dsl.py:46 | `split("+")` gives at least one part, exactly one iff there is no `+`, and no part contains `+` |
| PyStr.JoinSplit | src/application/post/button_dsl.py:46 | joining the parts of `split` with the separator gives the input back |
| PyStr.Find | src/application/post/button_dsl.py:46 | the first occurrence of a character, or none iff it does not occur |
| PyStr.SplitLines | src/application/post/button_dsl.py:34 | `splitlines` gives no line for empty input, and no line contains a line break |
| PyStr.SplitLinesNoBreak | src/application/post/button_dsl.py:34 | text without a line break is a single line, or no line when empty |
| PyStr.SplitLinesCons | src/application/post/button_dsl.py:34 | a line break ends the first line and is dropped, and the rest is split the same way |
| PyStr.SplitLinesCrLf | src/application/post/button_dsl.py:34 | "\r\n" counts as one break, not two |
| Domain.MakeUniqueKey | src/domain/post/vo.py:6-8 | a unique key exists iff the string has 8 characters, and it holds that string |
| Domain.MakeTextMd | src/domain/post/vo.py:30-32 | post text exists iff it has 1 to 1024 characters |
| Domain.MakeTelegramFileId | src/domain/post/vo.py:35-37 | a file id exists iff it has 1 to 512 characters |
| Domain.ContentTypeFromValue | src/domain/post/vo.py:11-15 | exactly text, photo, video and gif name a content type, and each names the one whose value it is |
| Domain.StatusFromValue | src/domain/post/vo.py:18-20 | exactly active and deleted name a status |
| Domain.StyleFromValue | src/domain/post/vo.py:23-27 | exactly default, green, blue and red name a style |
| Domain.ValuesRoundTrip | src/domain/post/vo.py:11-27 | every enum member is read back from its value |
| ButtonDsl.FindAll | src/application/post/button_dsl.py:19 | every match of `\[([^\]]+)\]` is non-empty and holds no `]` |
| ButtonDsl.FindAllChars | src/application/post/button_dsl.py:39 | matches only hold characters of the line |
| ButtonDsl.FindAllSkipsText | src/application/post/button_dsl.py:39 | text before the first `[` is ignored |
| ButtonDsl.FindAllBracket | src/application/post/button_dsl.py:39 | a bracketed spec is the next match, in left-to-right order |
| ButtonDsl.FindAllEmptyBrackets | src/application/post/button_dsl.py:19 | `[]` is never a match |
| ButtonDsl.ValidUrlShape | src/application/post/button_dsl.py:83-90 | a URL passes iff it has a scheme, then `//`, then a host whose first character is not `/`, `?` or `#`, and its netloc holds both or neither of `[` and `]` |
| ButtonDsl.NoColonInvalid | src/application/post/button_dsl.py:83-90 | a URL without `:` has no scheme and is rejected |
| ButtonDsl.SchemeAndHostValid | src/application/post/button_dsl.py:83-90 | any scheme followed by `://` and a bracket-free host passes, spaces included |
| ButtonDsl.ParseButtonWellFormed | src/application/post/button_dsl.py:55-76 | an accepted button has non-empty stripped text, a stripped URL that passes the URL check, and no `+` in either |
| ButtonDsl.ParseButtonChars | src/application/post/button_dsl.py:55-56 | a button's text and URL come from its bracket content |
| ButtonDsl.TooFewPartsIff | src/application/post/button_dsl.py:46-53 | a spec fails for too few parts iff it has no `+` |
| ButtonDsl.EmptyTextFirst | src/application/post/button_dsl.py:46-61 | a button whose text part is blank is refused for its text, whatever its URL and style |
| ButtonDsl.UrlBeforeStyle | src/application/post/button_dsl.py:46-63 | a button with text and an invalid URL is refused for its URL, naming its text, whatever its style |
| ButtonDsl.StyleLast | src/application/post/button_dsl.py:46-70 | with text and a valid URL, the lower-cased third part (or "default") alone decides between the button and an unknown-style error |
| ButtonDsl.ExtraPartsIgnored | src/application/post/button_dsl.py:55-57 | parts after the third change nothing |
| ButtonDsl.MissingStyleIsDefault | src/application/post/button_dsl.py:57 | a missing style part means `default` |
| ButtonDsl.NoSchemeRejected | src/application/post/button_dsl.py:63 | a URL without a scheme fails with the button's text in the error |
| ButtonDsl.TwoPartsAccepted | src/application/post/button_dsl.py:55-76 | text and a valid URL give a default-style button of the stripped parts |
| ButtonDsl.StyleDecides | src/application/post/button_dsl.py:65-68 | the lower-cased third part decides: a style when it names one, otherwise an error naming it |
| ButtonDsl.BlankStyleRejected | src/application/post/button_dsl.py:65-68 | an empty third part is rejected, not defaulted |
| ButtonDsl.ParseRowOk | src/application/post/button_dsl.py:39-78 | a line gives a row iff it has a match and every match parses; one button per match, in order |
| ButtonDsl.NonEmpty | src/application/post/button_dsl.py:36-37 | blank lines are dropped and no kept line is empty |
| ButtonDsl.NonEmptyIsFilter | src/application/post/button_dsl.py:36-37 | the kept lines are exactly the non-empty lines, in order |
| ButtonDsl.ParseButtonsDsl | src/application/post/button_dsl.py:23-80 | the loop returns exactly the rows or the first error the specification function gives |
| ButtonDsl.BlankLineIgnored | src/application/post/button_dsl.py:35-37 | inserting a blank line anywhere changes nothing |
| ButtonDsl.LinesClean | src/application/post/button_dsl.py:34-35 | every processed line is stripped, non-empty and free of line breaks |
| ButtonDsl.WhitespaceOnlyHasNoRows | src/application/post/button_dsl.py:34-37 | white-space-only input gives no rows |
| ButtonDsl.ParseRows | src/application/post/button_dsl.py:34-80 | parsing succeeds iff every non-blank line does, and gives one row per such line, in order |
| ButtonDsl.ParseFirstFault | src/application/post/button_dsl.py:34-78 | a failure is the error of the first failing line, and no rows are returned |
| ButtonDsl.ParseRowFirstFault | src/application/post/button_dsl.py:45-68 | a failing row fails with its first failing button's error |
| ButtonDsl.LineWithoutBrackets | src/application/post/button_dsl.py:39-42 | a non-blank line with no match fails the whole parse |
| ButtonDsl.ParsedButtonsClean | src/application/post/button_dsl.py:55-76 | every button of a successful parse is well formed and built from characters of the input |
| Dtos.PrettyStyle | src/application/post/dtos.py:29-38 | a Telegram style exists iff the style is green, blue or red, and it is success, primary or danger |
| Dtos.PrettyStyleTable | src/application/post/dtos.py:29-38 | default gives none, green success, blue primary, red danger |
| Dtos.PrettyStyleInjective | src/application/post/dtos.py:29-38 | different styles never look alike |
| Dtos.Preview | src/application/post/dtos.py:70-71 | the preview is the first min(50, length) characters of the text |
| Dtos.PostToListItem | src/application/post/dtos.py:68-78 | the preview is absent iff the text is, and is a prefix of it; id, key, content type and creation time are copied |
| Dtos.PostToDetail | src/application/post/dtos.py:81-95 | rows and their lengths are kept; text and URL are copied and the style becomes its value; optional fields map to their value or none |
| PostMapper.ToModel | src/infrastructure/db/mappers/post.py:54-77 | buttons become rows of `{text, url, style}` of the same shape; the key, text and file id are copied; content type and status become their string values, which read back as the same enum members; the owner becomes its int |
| PostMapper.ButtonFromJson | src/infrastructure/db/mappers/post.py:19-23 | a button dictionary is read iff it has text, url and a valid style; a missing key is reported in the order text, url, style, and then a bad style |
| PostMapper.ToDomain | src/infrastructure/db/mappers/post.py:16-51 | a row is read iff its buttons, key, content type, status and optional texts are valid; button errors come first; every field is copied or converted |
| PostMapper.ButtonRoundTrip | src/infrastructure/db/mappers/post.py:17-27 | a button written as a dictionary is read back unchanged |
| PostMapper.RowRoundTrip | src/infrastructure/db/mappers/post.py:17-27 | a row of buttons is read back unchanged |
| PostMapper.ButtonsRoundTrip | src/infrastructure/db/mappers/post.py:17-27 | all button rows are read back unchanged |
| PostMapper.RoundTrip | src/infrastructure/db/mappers/post.py:16-77 | reading back a written post gives that post |
| PostMapper.NullButtonsEmpty | src/infrastructure/db/mappers/post.py:26 | a null buttons column reads as no rows |
| PostMapper.EmptyStringsAbsent | src/infrastructure/db/mappers/post.py:43-48 | an empty text or file id reads as absent |
| PostMapper.OwnerWrapping | src/infrastructure/db/mappers/post.py:29-33 | the owner is wrapped in `UserId` only when it is not one already |
| PostMapper.ButtonsFromJsonShape | src/infrastructure/db/mappers/post.py:17-27 | read rows keep the shape and the text, url and style of every dictionary |
| PostRepo.First | src/infrastructure/db/repos/post.py:26-29 | `.first()` is none iff there is no row, else the first row |
| PostRepo.InsertByCreated | src/infrastructure/db/repos/post.py:67 | inserting into a newest-first list keeps it newest first and adds exactly that post |
| PostRepo.SortNewestFirst | src/infrastructure/db/repos/post.py:67 | `ORDER BY created_at DESC` gives a newest-first permutation of the rows |
| PostRepo.Window | src/infrastructure/db/repos/post.py:68-69 | `OFFSET`/`LIMIT` skip `offset` rows and keep the next `limit` rows, or all that remain, in order; it fails exactly when the offset, then the limit, is negative |
| PostRepo.PostStore.CreatePost | src/infrastructure/db/repos/post.py:16-21 | a post with a new id and key is appended and returned unchanged; a taken id or key is an integrity error and writes nothing; the owner's foreign key is not checked |
| PostRepo.PostStore.GetPostById | src/infrastructure/db/repos/post.py:23-31 | the post with that id whatever its status, none iff there is none |
| PostRepo.PostStore.GetPostByKey | src/infrastructure/db/repos/post.py:33-44 | an active post with exactly that key, none iff there is none |
| PostRepo.PostStore.SearchPostsByKey | src/infrastructure/db/repos/post.py:46-56 | the first `min(limit, n)` of the n active posts with exactly that key, in table order; a negative limit is an error |
| PostRepo.PostStore.GetUserPosts | src/infrastructure/db/repos/post.py:58-72 | exactly the page at `offset` of the owner's active posts sorted newest first, as long as `limit` allows and the posts last; a negative offset, then a negative limit, is an error |
| PostRepo.PostStore.CountUserPosts | src/infrastructure/db/repos/post.py:74-84 | the number of the owner's active posts, zero exactly when the owner has none |
| PostRepo.PostStore.KeyExists | src/infrastructure/db/repos/post.py:97-100 | true iff any post, of any status, has that key |
| PostRepo.PostStore.SoftDeletePost | src/infrastructure/db/repos/post.py:86-95 | the post with that id becomes deleted with its deletion time; every row is kept and every other row is unchanged |
| PostRepo.CreatedIsFound | src/infrastructure/db/repos/post.py:16-44 | a created post is found by its id, and by its key while active |
| PostRepo.SoftDeleteKeepsKeys | src/infrastructure/db/repos/post.py:86-100 | soft deletion keeps every id and key, so a deleted post's key stays taken |
| PostRepo.SoftDeletedLeavesActive | src/infrastructure/db/repos/post.py:86-95 | no post with that id remains among its owner's active posts, and their number does not grow |
| PostRepo.PageOfAll | src/infrastructure/db/repos/post.py:58-84 | a page as large as the count holds all the owner's active posts |
| PostRepo.PageOfCount | src/infrastructure/db/repos/post.py:58-84 | on a store, `get_user_posts(user, 0, count_user_posts(user))` lists every active post of the user, newest first |
| Keygen.AlphabetIsKeyChars | src/application/post/keygen.py:4 | the alphabet is exactly the 36 characters a-z and 0-9 |
| Keygen.GenerateUniqueKey | src/application/post/keygen.py:8-10 | a generated key has 8 characters, all from the alphabet |
| Keygen.KeyIsUniqueKey | src/application/post/keygen.py:5 | a key of that length is a valid `UniqueKey` |
| Keygen.KeyIsItsOwnQuery | src/application/post/keygen.py:4 | a generated key is unchanged by `strip().lower()` |
| CreatePost.ValidateContent | src/application/post/create.py:32-52 | the content is accepted iff the type is known, a given text fits 1024 and a given file id 512 characters, a text post has text and a media post a file; the type is checked first, then the text, then the file id, then what the type requires; empty text and file ids are absent |
| CreatePost.ButtonsOf | src/application/post/create.py:55-61 | no DSL means no buttons; otherwise the buttons are read iff the DSL parses, and they are the parser's rows, button by button, or its error |
| CreatePost.GenerateUniqueKey | src/application/post/create.py:88-94 | at most 10 keys are drawn; the first free one is returned, and failure means all 10 were taken |
| CreatePost.CheckInput | src/application/post/create.py:32-61 | the input passes iff the content validates and the DSL parses, giving that content and those buttons; otherwise the validation error, or else the DSL error |
| CreatePost.WritePost | src/application/post/create.py:63-94 | with every owner taken to exist, fails only when all 10 drawn keys were taken, or when the id is already in the table, and then writes nothing; otherwise appends the post under the last drawn key, which was free, and commits |
| CreatePost.Execute | src/application/post/create.py:31-94 | errors in validation order and nothing written on error; input that passes the checks, with every owner taken to exist, fails only when all 10 drawn keys were taken or the id is already in the table; on success one active post with the last drawn key, which was free, is written, then committed, and its key and id are returned |
| CreatePost.NewPostIsFresh | src/application/post/create.py:66-78 | a new post is active, created and updated at the same instant, and found by its key |
| CreatePost.ValidationOrder | src/application/post/create.py:32-52 | an unknown type fails first; a text post without text and a media post without a file fail |
| DeletePost.Execute | src/application/post/delete.py:24-35 | true iff the post exists and the requester owns it, whatever its status; then it is soft-deleted and committed, otherwise nothing is written |
| DeletePost.DeletedPostState | src/application/post/delete.py:33 | after deletion the post is deleted and stamped, keeps its key and buttons, and is no longer among its owner's active posts |
| SearchByKey.NormaliseQuery | src/application/post/search_by_key.py:21 | normalising never lengthens the query |
| SearchByKey.Search | src/application/post/search_by_key.py:20-28 | an empty query gives nothing; otherwise the repository's at most 10 posts as details, in order, all with the normalised key |
| SearchByKey.NormaliseIdempotent | src/application/post/search_by_key.py:21 | normalising twice is normalising once |
| SearchByKey.GeneratedKeyIsItsQuery | src/application/post/search_by_key.py:21-23 | searching for a generated key looks up that key |
| UserPosts.PageOffset | src/application/post/get_user_posts.py:24 | page n starts at post (n - 1) * 10, and pages below 1 give a negative offset |
| UserPosts.Execute | src/application/post/get_user_posts.py:22-35 | a page below 1 is an error; otherwise the page is echoed, total is the active count, and items are the page's posts projected in order |
| UserPosts.TotalIndependentOfPage | src/application/post/get_user_posts.py:29 | total is the same for every page |
| Markups.TotalPages | src/presentation/bot/utils/markups/post.py:142 | at least one page, and the fewest pages of 10 that hold all posts |
| Markups.NextPageIffMorePosts | src/presentation/bot/utils/markups/post.py:153 | there is a next page iff posts remain after this page |
| Markups.GetMyPostsKeyboard | src/presentation/bot/utils/markups/post.py:118-173 | one row per post in order, the previous/next row only when non-empty with the right targets, and the back-to-menu row last |
| Markups.InlineKeyboardOf | src/presentation/bot/utils/markups/post.py:252-272 | no keyboard iff there are no rows; otherwise rows and their lengths are kept |
| Markups.BuildInlineKeyboardFromButtons | src/presentation/bot/utils/markups/post.py:252-272 | the loop builds exactly that keyboard |
| Markups.InlineKeyboardButtons | src/presentation/bot/utils/markups/post.py:260-270 | each button keeps text and URL and gets `pretty_style` |
| Markups.DetailKeyboardStyles | src/presentation/bot/utils/markups/post.py:260-270 | a saved post's keyboard shows each button with the Telegram name of its own style |
| Wizard.ContentOf | src/presentation/bot/routers/post_wizard.py:95-139 | per content type, a message is accepted iff it has the needed content and both its plain and HTML texts fit in 1024 characters; missing content is answered with that type's wrong-content key, and any other refusal is text-too-long; the HTML text and the last photo size are stored; any other content type stores neither text nor file |
| Wizard.CaptionChecked | src/presentation/bot/routers/post_wizard.py:136-139 | an HTML text over 1024 characters is rejected |
| Wizard.StyleMapIsPrettyStyle | src/presentation/bot/routers/post_wizard.py:196-201 | the preview's style map agrees with `pretty_style` on all four styles |
| Wizard.PreviewKeyboard | src/presentation/bot/routers/post_wizard.py:204-221 | no keyboard without a DSL; otherwise a keyboard iff the DSL parses |
| Wizard.PreviewMatchesPublished | src/presentation/bot/routers/post_wizard.py:204-221 | the preview keyboard is the keyboard the saved post will show |
| Wizard.PreviewRow | src/presentation/bot/routers/post_wizard.py:210-219 | one preview row is the saved post's row |
| Wizard.BlankDslPreview | src/presentation/bot/routers/post_wizard.py:204-221 | a DSL of blank lines previews an empty keyboard, while the saved post has none |
| Wizard.PostWizard.StartWizard | src/presentation/bot/routers/post_wizard.py:40-57 | the data is cleared and the state is choosing a type |
| Wizard.PostWizard.ChooseType | src/presentation/bot/routers/post_wizard.py:60-79 | only in the choosing state: the type is stored and the wizard collects content |
| Wizard.PostWizard.CollectContent | src/presentation/bot/routers/post_wizard.py:85-147 | only while collecting content; a refused message changes nothing; an accepted one stores text and file id and moves to the buttons |
| Wizard.PostWizard.SkipButtons | src/presentation/bot/routers/post_wizard.py:153-166 | only while collecting buttons: the DSL becomes none and the preview, when one is sent, has no keyboard |
| Wizard.PostWizard.CollectButtons | src/presentation/bot/routers/post_wizard.py:172-190 | the DSL is stored only when it parses, otherwise the parser's message is returned; a stored DSL is previewed as `_show_preview` does; the state never changes |
| Wizard.PostWizard.PreviewReply | src/presentation/bot/routers/post_wizard.py:224-280 | the preview needs the stored content type; it shows the DSL's keyboard for a text post or a photo, video or GIF post with a file id, and nothing is sent otherwise |
| Wizard.InputOf | src/presentation/bot/routers/post_wizard.py:294-304 | the create input is built from the data dictionary, with the content type required; text, file id and DSL are the dictionary's strings, or None when missing or None |
| Wizard.PostWizard.ConfirmPost | src/presentation/bot/routers/post_wizard.py:283-323 | the wizard is cleared on success and on failure; no content type, invalid content or a rejected DSL gives the internal error and writes nothing; valid data fails only when all 10 drawn keys were taken or the id is in use, every owner being taken to exist; a save appends the post that create builds from the collected data, under a fresh generated key, and commits |
| Wizard.PostWizard.RestartWizard | src/presentation/bot/routers/post_wizard.py:329-342 | the data is cleared and the state is choosing a type |
| Wizard.PostWizard.CancelWizard | src/presentation/bot/routers/post_wizard.py:348-361 | the data and state are cleared |

## Left out

- Telegram I/O: sending, editing and deleting messages, and answering callbacks. The wizard's replies stand for what it sends, and translated texts are kept as their message keys.
- The preview's media messages: which send call `_show_preview` uses, and its captions. Only its keyboard, its need for a content type, and whether it sends anything are modelled.
- SQLAlchemy sessions, `flush`, `execute` and async. The table holds domain posts, which `PostMapper.RoundTrip` shows is the same as holding their ORM rows. A commit is an event in `PostStore.events`.
- The order of rows the SQL does not sort. Key lookups and search return table order, and equal `created_at` values keep table order.
- `datetime.now`, `uuid.uuid4` and `secrets.choice`. The clock and new ids are parameters, and each key character is a nondeterministic choice from the alphabet.
- PostRepo.PostStore.CreatePost: the `users` table and the foreign key from `owner_user_id` to `users.id` are not modelled; every owner is taken to exist, so an insert for an unknown owner, which the database refuses with an integrity error, succeeds here. The claims of `CreatePost.WritePost`, `CreatePost.Execute` and `Wizard.PostWizard.ConfirmPost` that valid input fails only on taken keys or a used id rest on this.
- PostRepo.PostStore.SoftDeletePost: `updated_at` is the database's `onupdate` clock, which is passed in as a parameter.
- `urlparse` internals beyond scheme and netloc: NFKC checks, stripping of C0 controls and tab/CR/LF, and IPv6 host validation beyond the square-bracket check.
- PyStr.Lower: only ASCII letters and the Kelvin sign are lower-cased, not the whole Unicode case table.
- SearchByKey.NormaliseQuery: its bound that normalising never lengthens the query holds for the one-for-one `Lower` only; Python's `str.lower` turns U+0130 into two characters.
- `NonEmptyString` is not part of this model. Its bounds are taken from `domain/post/vo.py` as Option-returning constructors.
- Date formatting in post captions and callback-data packing. Captions keep the timestamp, and callbacks are a datatype.
- The fixed keyboards (main menu, post types, skip, preview, delete confirmation) and `back_markup`.
- The glue routers `inline.py`, `my_posts.py` and `commands.py`, the ORM model, the migration and the DI providers.
- `GetPostDetailInteractor` is not part of this model.

