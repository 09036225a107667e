/** `GetUserPostsInteractor` (`src/application/post/get_user_posts.py`): one
    page of a user's posts and their total. */
module UserPosts {
  import opened Wrappers
  import opened Domain
  import opened Dtos
  import opened PostRepo

  const PostsPerPage: int := 10

  /** Where page `page` starts: pages are numbered from 1. */
  function PageOffset(page: int): (offset: int)
    ensures page >= 1 ==> offset >= 0 && offset % PostsPerPage == 0 && offset / PostsPerPage == page - 1
    ensures page < 1 ==> offset < 0
  {
    (page - 1) * PostsPerPage
  }

  /** `GetUserPostsInteractor.__call__`.  A page below 1 gives a negative
      OFFSET, which the database refuses. */
  function Execute(store: PostStore, userId: int, page: int): (r: Result<PostListOutputDto, RepoError>)
    reads store
    ensures page < 1 <==> r == Err(NegativeOffset)
    ensures r.Ok? ==>
              r.value.page == page && r.value.total == store.CountUserPosts(UserId(userId)) &&
              |r.value.items| <= PostsPerPage
    ensures r.Ok? ==>
              var posts := store.GetUserPosts(UserId(userId), PageOffset(page), PostsPerPage).value;
              |r.value.items| == |posts| &&
              forall i :: 0 <= i < |posts| ==> r.value.items[i] == PostToListItem(posts[i])
  {
    var user := UserId(userId);
    match store.GetUserPosts(user, PageOffset(page), PostsPerPage)
    case Err(e) => Err(e)
    case Ok(posts) =>
      Ok(PostListOutputDto(Map(PostToListItem, posts), store.CountUserPosts(user), page))
  }

  /** The total does not depend on the page asked for. */
  lemma TotalIndependentOfPage(store: PostStore, userId: int, p1: int, p2: int)
    requires p1 >= 1 && p2 >= 1
    ensures Execute(store, userId, p1).Ok? && Execute(store, userId, p2).Ok?
    ensures Execute(store, userId, p1).value.total == Execute(store, userId, p2).value.total
  {
  }
}
