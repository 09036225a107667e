/** The keyboards of `src/presentation/bot/utils/markups/post.py` that
    depend on data: the paginated list of a user's posts and the keyboard of
    a post's own buttons.  Button captions that come from translations are
    kept as their message keys. */
module Markups {
  import opened Wrappers
  import opened Domain
  import opened Dtos

  const PostsPerPage: int := 10

  /** A caption: the user's own text, a translation key, or the summary line
      of a post (its date is kept as the timestamp it is formatted from). */
  datatype Label =
    | Plain(text: string)
    | Translated(key: string)
    | PostSummary(uniqueKey: string, contentType: string, createdAt: Timestamp)

  /** What pressing a button does: the callbacks the bot answers, or a link
      with an optional Telegram style. */
  datatype Action =
    | PreviewPost(postId: PostId)
    | GoToPage(page: int)
    | BackToMenu
    | OpenUrl(url: string, style: Option<string>)

  datatype InlineButton = InlineButton(caption: Label, action: Action)

  type Keyboard = seq<seq<InlineButton>>

  /** `max(1, (total + POSTS_PER_PAGE - 1) // POSTS_PER_PAGE)`; Dafny's
      division by a positive number floors, as Python's `//` does. */
  function TotalPages(total: int): (n: int)
    ensures n >= 1
    ensures total >= 1 ==> (n - 1) * PostsPerPage < total <= n * PostsPerPage
    ensures total <= PostsPerPage ==> n == 1
  {
    var pages := (total + PostsPerPage - 1) / PostsPerPage;
    if pages < 1 then 1 else pages
  }

  /** There is a next page exactly when posts remain after this one. */
  lemma NextPageIffMorePosts(page: int, total: int)
    requires page >= 1
    ensures page < TotalPages(total) <==> page * PostsPerPage < total
  {
    var n := TotalPages(total);
    if total >= 1 {
      if page < n {
        assert page * PostsPerPage <= (n - 1) * PostsPerPage;
      } else {
        assert n * PostsPerPage <= page * PostsPerPage;
      }
    }
  }

  function PostEntry(post: PostListItemDto): InlineButton {
    InlineButton(PostSummary(post.uniqueKey, post.contentType, post.createdAt), PreviewPost(post.id))
  }

  const PrevPage: string := "btn-prev-page"
  const NextPage: string := "btn-next-page"
  const BackToMenuKey: string := "btn-back-to-menu"

  /** `get_my_posts_keyboard`: one row per post in the given order, then the
      navigation row when it has a button, then the way back to the menu. */
  method GetMyPostsKeyboard(posts: seq<PostListItemDto>, page: int, total: int) returns (keyboard: Keyboard)
    ensures var hasNav := page > 1 || page < TotalPages(total);
            |keyboard| == |posts| + (if hasNav then 1 else 0) + 1
    ensures forall i :: 0 <= i < |posts| ==> keyboard[i] == [PostEntry(posts[i])]
    ensures keyboard[|keyboard| - 1] == [InlineButton(Translated(BackToMenuKey), BackToMenu)]
    ensures page > 1 || page < TotalPages(total) ==>
              var nav := keyboard[|posts|];
              |nav| == (if page > 1 then 1 else 0) + (if page < TotalPages(total) then 1 else 0) &&
              (page > 1 ==> nav[0] == InlineButton(Translated(PrevPage), GoToPage(page - 1))) &&
              (page < TotalPages(total) ==> nav[|nav| - 1] == InlineButton(Translated(NextPage), GoToPage(page + 1)))
  {
    keyboard := [];
    var i := 0;
    while i < |posts|
      invariant i <= |posts| && |keyboard| == i
      invariant forall k :: 0 <= k < i ==> keyboard[k] == [PostEntry(posts[k])]
    {
      keyboard := keyboard + [[PostEntry(posts[i])]];
      i := i + 1;
    }

    var totalPages := TotalPages(total);
    var nav: seq<InlineButton> := [];
    if page > 1 {
      nav := nav + [InlineButton(Translated(PrevPage), GoToPage(page - 1))];
    }
    if page < totalPages {
      nav := nav + [InlineButton(Translated(NextPage), GoToPage(page + 1))];
    }
    if nav != [] {
      keyboard := keyboard + [nav];
    }
    keyboard := keyboard + [[InlineButton(Translated(BackToMenuKey), BackToMenu)]];
  }

  /** The link button of one of a post's buttons. */
  function LinkButton(b: PostButtonDto): InlineButton {
    InlineButton(Plain(b.text), OpenUrl(b.url, PrettyStyle(b.style)))
  }

  /** What `build_inline_keyboard_from_buttons` returns. */
  function InlineKeyboardOf(rows: seq<seq<PostButtonDto>>): (kb: Option<Keyboard>)
    ensures kb.None? <==> rows == []
    ensures kb.Some? ==> |kb.value| == |rows|
    ensures kb.Some? ==> forall i :: 0 <= i < |rows| ==> |kb.value[i]| == |rows[i]|
  {
    if rows == [] then None
    else Some(seq(|rows|, i requires 0 <= i < |rows| => Map(LinkButton, rows[i])))
  }

  /** `build_inline_keyboard_from_buttons`: no keyboard for no rows, else one
      keyboard row per button row. */
  method BuildInlineKeyboardFromButtons(rows: seq<seq<PostButtonDto>>) returns (kb: Option<Keyboard>)
    ensures kb == InlineKeyboardOf(rows)
  {
    if rows == [] {
      return None;
    }
    var keyboard: Keyboard := [];
    var i := 0;
    while i < |rows|
      invariant i <= |rows| && |keyboard| == i
      invariant forall k :: 0 <= k < i ==> keyboard[k] == Map(LinkButton, rows[k])
    {
      keyboard := keyboard + [Map(LinkButton, rows[i])];
      i := i + 1;
    }
    assert keyboard == InlineKeyboardOf(rows).value;
    kb := Some(keyboard);
  }

  /** Every button keeps its text and URL, and its style becomes the
      Telegram style of `pretty_style`. */
  lemma InlineKeyboardButtons(rows: seq<seq<PostButtonDto>>, i: nat, j: nat)
    requires i < |rows| && j < |rows[i]|
    ensures InlineKeyboardOf(rows).value[i][j] ==
              InlineButton(Plain(rows[i][j].text), OpenUrl(rows[i][j].url, PrettyStyle(rows[i][j].style)))
  {
  }

  /** The keyboard of a saved post shows each button with its own style. */
  lemma DetailKeyboardStyles(p: Post, i: nat, j: nat)
    requires i < |p.buttons| && j < |p.buttons[i]|
    ensures var kb := InlineKeyboardOf(PostToDetail(p).buttons);
            kb.Some? && kb.value[i][j] ==
              InlineButton(Plain(p.buttons[i][j].text),
                           OpenUrl(p.buttons[i][j].url, PrettyStyle(StyleValue(p.buttons[i][j].style))))
  {
    var d: seq<seq<PostButtonDto>> := PostToDetail(p).buttons;
    assert StyleFromValue(d[i][j].style) == Some(p.buttons[i][j].style);
    assert d[i][j].style == StyleValue(p.buttons[i][j].style);
    InlineKeyboardButtons(d, i, j);
  }
}
