/** `DeletePostInteractor` (`src/application/post/delete.py`): only the
    owner may delete a post, and deleting is a soft delete.  The clocks the
    UPDATE reads are parameters. */
module DeletePost {
  import opened Wrappers
  import opened Domain
  import opened PostRepo

  datatype DeletePostInputDto = DeletePostInputDto(postId: PostId, userId: int)

  /** `DeletePostInteractor.__call__`: false, with nothing written, for a
      missing post or a requester who is not its owner; otherwise the post
      is soft-deleted, the change committed, and the answer is true.  The
      status is not looked at, so a post already deleted is deleted again. */
  method Execute(store: PostStore, data: DeletePostInputDto, now: Timestamp, dbNow: Timestamp)
    returns (deleted: bool)
    requires store.Valid()
    modifies store
    ensures store.Valid()
    ensures deleted <==> old(store.GetPostById(data.postId)).Some? &&
                         old(store.GetPostById(data.postId)).value.ownerUserId.value == data.userId
    ensures !deleted ==> store.rows == old(store.rows) && store.events == old(store.events)
    ensures deleted ==>
              |store.rows| == |old(store.rows)| &&
              (forall i :: 0 <= i < |store.rows| ==>
                 store.rows[i] == SoftDeleted(old(store.rows[i]), data.postId, now, dbNow)) &&
              store.events == old(store.events) + [Updated(data.postId), Committed]
  {
    var post := store.GetPostById(data.postId);
    if post.None? {
      return false;
    }
    if post.value.ownerUserId.value != data.userId {
      return false;
    }
    store.SoftDeletePost(data.postId, now, dbNow);
    store.Commit();
    deleted := true;
  }

  /** After a successful delete the post is still found by id, now with the
      deleted status, and it no longer counts among its owner's posts. */
  lemma DeletedPostState(rows: seq<Post>, id: PostId, now: Timestamp, dbNow: Timestamp, i: nat)
    requires i < |rows| && rows[i].id == id
    ensures var after := seq(|rows|, k requires 0 <= k < |rows| => SoftDeleted(rows[k], id, now, dbNow));
            after[i].status == Deleted && after[i].deletedAt == Some(now) &&
            after[i].uniqueKey == rows[i].uniqueKey && after[i].buttons == rows[i].buttons &&
            forall p :: p in ActiveOfUser(after, rows[i].ownerUserId) ==> p.id != id
  {
    SoftDeletedLeavesActive(rows, id, now, dbNow, rows[i].ownerUserId);
  }
}
