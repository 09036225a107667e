/** `PostRepositoryImpl` (`src/infrastructure/db/repos/post.py`) over an
    in-memory `posts` table.  The table is the sequence of rows in insertion
    order; writes and commits are recorded in an event log. */
module PostRepo {
  import opened Wrappers
  import opened Domain
  import opened PostMapper

  /** What reaches the database: an inserted row, an UPDATE of one id, a
      COMMIT. */
  datatype Event = Inserted(post: Post) | Updated(id: PostId) | Committed

  /** The statements can fail: the primary key and the unique key are
      enforced, and PostgreSQL refuses a negative OFFSET or LIMIT. */
  datatype RepoError = IntegrityError | NegativeOffset | NegativeLimit

  // ---------------------------------------------------------------------
  // The queries, as functions of the rows

  /** Rows with the given id; at most one in a valid table. */
  function WithId(rows: seq<Post>, id: PostId): seq<Post> {
    Filter((p: Post) => p.id == id, rows)
  }

  /** `WHERE unique_key = key AND status = 'active'` */
  function ActiveWithKey(rows: seq<Post>, key: string): seq<Post> {
    Filter((p: Post) => p.uniqueKey == key && p.status == Active, rows)
  }

  /** `WHERE owner_user_id = user AND status = 'active'` */
  function ActiveOfUser(rows: seq<Post>, user: UserId): seq<Post> {
    Filter((p: Post) => p.ownerUserId == user && p.status == Active, rows)
  }

  /** `.scalars().first()` */
  function First(rows: seq<Post>): (r: Option<Post>)
    ensures r.None? <==> rows == []
    ensures r.Some? ==> r.value == rows[0]
  {
    if rows == [] then None else Some(rows[0])
  }

  predicate NewestFirst(rows: seq<Post>) {
    forall i, j :: 0 <= i < j < |rows| ==> rows[i].createdAt >= rows[j].createdAt
  }

  /** Puts `p` into rows ordered newest first, before the first row that is
      not newer than it. */
  function InsertByCreated(p: Post, rows: seq<Post>): (r: seq<Post>)
    requires NewestFirst(rows)
    ensures NewestFirst(r)
    ensures multiset(r) == multiset(rows) + multiset{p}
    ensures |r| == |rows| + 1 && (r[0] == p || (rows != [] && r[0] == rows[0]))
    decreases |rows|
  {
    if rows == [] || rows[0].createdAt <= p.createdAt then [p] + rows
    else
      var rest := InsertByCreated(p, rows[1..]);
      assert rows == [rows[0]] + rows[1..];
      [rows[0]] + rest
  }

  /** `ORDER BY created_at DESC`: the rows, newest first. */
  function SortNewestFirst(rows: seq<Post>): (r: seq<Post>)
    ensures NewestFirst(r)
    ensures multiset(r) == multiset(rows)
    decreases |rows|
  {
    if rows == [] then []
    else
      assert rows == [rows[0]] + rows[1..];
      InsertByCreated(rows[0], SortNewestFirst(rows[1..]))
  }

  /** `.offset(offset).limit(limit)`: PostgreSQL checks OFFSET before
      LIMIT. */
  function Window(rows: seq<Post>, offset: int, limit: int): (r: Result<seq<Post>, RepoError>)
    ensures offset < 0 ==> r == Err(NegativeOffset)
    ensures offset >= 0 && limit < 0 ==> r == Err(NegativeLimit)
    ensures r.Ok? ==> |r.value| <= limit &&
                      forall i :: 0 <= i < |r.value| ==> offset + i < |rows| && r.value[i] == rows[offset + i]
    ensures r.Ok? && offset + limit <= |rows| ==> |r.value| == limit
    ensures r.Ok? && offset <= |rows| <= offset + limit ==> |r.value| == |rows| - offset
    ensures offset >= 0 && limit >= 0 <==> r.Ok?
    ensures r.Ok? ==> |r.value| == PageLength(|rows|, offset, limit)
  {
    if offset < 0 then Err(NegativeOffset)
    else if limit < 0 then Err(NegativeLimit)
    else if offset >= |rows| then Ok([])
    else if offset + limit >= |rows| then Ok(rows[offset..])
    else Ok(rows[offset..offset + limit])
  }

  /** How many of `total` rows a page at `offset` of at most `limit` rows
      holds. */
  function PageLength(total: nat, offset: nat, limit: nat): nat {
    if offset >= total then 0 else if offset + limit >= total then total - offset else limit
  }

  /** A row from the table, with its id set to deleted. */
  function SoftDeleted(p: Post, id: PostId, now: Timestamp, dbNow: Timestamp): Post {
    if p.id == id then p.(status := Deleted, deletedAt := Some(now), updatedAt := dbNow) else p
  }

  /** No two rows share an id or a unique key. */
  predicate UniqueRows(rows: seq<Post>) {
    forall i, j :: 0 <= i < j < |rows| ==>
      rows[i].id != rows[j].id && rows[i].uniqueKey != rows[j].uniqueKey
  }

  predicate HasKey(rows: seq<Post>, key: string) {
    exists i :: 0 <= i < |rows| && rows[i].uniqueKey == key
  }

  predicate HasId(rows: seq<Post>, id: PostId) {
    exists i :: 0 <= i < |rows| && rows[i].id == id
  }

  class PostStore {
    var rows: seq<Post>
    var events: seq<Event>

    /** The constraints of the table. */
    ghost predicate Valid()
      reads this
    {
      UniqueRows(rows)
    }

    constructor ()
      ensures rows == [] && events == [] && Valid()
    {
      rows := [];
      events := [];
    }

    /** `create_post`: the row is added and the post read back from it; the
        flush fails when the id or the key is taken.  The owner's foreign
        key into `users` is not checked: there is no users table here. */
    method CreatePost(post: Post) returns (r: Result<Post, RepoError>)
      requires Valid()
      modifies this
      ensures Valid()
      ensures old(HasId(rows, post.id) || HasKey(rows, post.uniqueKey)) ==>
                r == Err(IntegrityError) && rows == old(rows) && events == old(events)
      ensures !old(HasId(rows, post.id) || HasKey(rows, post.uniqueKey)) ==>
                r == Ok(post) && rows == old(rows) + [post] && events == old(events) + [Inserted(post)]
    {
      if HasId(rows, post.id) || HasKey(rows, post.uniqueKey) {
        return Err(IntegrityError);
      }
      rows := rows + [post];
      events := events + [Inserted(post)];
      RoundTrip(post);
      r := Ok(ToDomain(ToModel(post)).value);
    }

    /** `get_post_by_id`: whatever its status. */
    function GetPostById(id: PostId): (r: Option<Post>)
      reads this
      ensures r.None? <==> !HasId(rows, id)
      ensures r.Some? ==> r.value in rows && r.value.id == id
    {
      var found := WithId(rows, id);
      FilterMultiset((p: Post) => p.id == id, rows);
      assert found != [] ==> found[0] in rows by {
        if found != [] { assert multiset(found)[found[0]] > 0; }
      }
      assert HasId(rows, id) ==> found != [] by {
        if HasId(rows, id) {
          var i :| 0 <= i < |rows| && rows[i].id == id;
          assert multiset(rows)[rows[i]] > 0;
        }
      }
      First(found)
    }

    /** `get_post_by_key`: active posts only. */
    function GetPostByKey(key: string): (r: Option<Post>)
      reads this
      ensures r.Some? ==> r.value in rows && r.value.uniqueKey == key && r.value.status == Active
      ensures r.None? <==> forall p :: p in rows ==> !(p.uniqueKey == key && p.status == Active)
    {
      var found := ActiveWithKey(rows, key);
      FilterMultiset((p: Post) => p.uniqueKey == key && p.status == Active, rows);
      assert found != [] ==> found[0] in rows by {
        if found != [] { assert multiset(found)[found[0]] > 0; }
      }
      assert found == [] ==> forall p :: p in rows ==> !(p.uniqueKey == key && p.status == Active) by {
        if found == [] {
          forall p | p in rows ensures !(p.uniqueKey == key && p.status == Active) {
            assert multiset(rows)[p] > 0;
          }
        }
      }
      First(found)
    }

    /** `search_posts_by_key`: at most `limit` active posts with the key. */
    function SearchPostsByKey(key: string, limit: int): (r: Result<seq<Post>, RepoError>)
      reads this
      ensures limit < 0 <==> r == Err(NegativeLimit)
      ensures r.Ok? ==> |r.value| <= limit
      ensures r.Ok? ==> forall p :: p in r.value ==> p in rows && p.uniqueKey == key && p.status == Active
      ensures r.Ok? ==> var found := ActiveWithKey(rows, key);
                        |r.value| == (if limit < |found| then limit else |found|) &&
                        forall i :: 0 <= i < |r.value| ==> r.value[i] == found[i]
    {
      var found := ActiveWithKey(rows, key);
      var r := Window(found, 0, limit);
      if r.Ok? then
        forall p | p in r.value ensures p in rows && p.uniqueKey == key && p.status == Active {
          FilterIn((p: Post) => p.uniqueKey == key && p.status == Active, rows, p);
        }
        r
      else r
    }

    /** `get_user_posts`: the user's active posts, newest first, then the
        page asked for. */
    function GetUserPosts(user: UserId, offset: int, limit: int): (r: Result<seq<Post>, RepoError>)
      reads this
      ensures offset < 0 ==> r == Err(NegativeOffset)
      ensures offset >= 0 && limit < 0 ==> r == Err(NegativeLimit)
      ensures r.Ok? ==> |r.value| <= limit && NewestFirst(r.value)
      ensures r.Ok? ==> forall p :: p in r.value ==> p in rows && p.ownerUserId == user && p.status == Active
      ensures r.Ok? ==> var s := SortNewestFirst(ActiveOfUser(rows, user));
                        |r.value| == PageLength(|s|, offset, limit) &&
                        forall i :: 0 <= i < |r.value| ==> offset + i < |s| && r.value[i] == s[offset + i]
    {
      var sorted := SortNewestFirst(ActiveOfUser(rows, user));
      var r := Window(sorted, offset, limit);
      if r.Ok? then
        forall p | p in r.value ensures p in rows && p.ownerUserId == user && p.status == Active {
          assert multiset(sorted)[p] > 0;
          FilterIn((p: Post) => p.ownerUserId == user && p.status == Active, rows, p);
        }
        r
      else r
    }

    /** `count_user_posts` */
    function CountUserPosts(user: UserId): (n: nat)
      reads this
      ensures n <= |rows|
      ensures n == |ActiveOfUser(rows, user)|
      ensures n == 0 <==> forall p :: p in rows ==> !(p.ownerUserId == user && p.status == Active)
    {
      var found := ActiveOfUser(rows, user);
      FilterMultiset((p: Post) => p.ownerUserId == user && p.status == Active, rows);
      assert found != [] ==> found[0] in rows && found[0].ownerUserId == user && found[0].status == Active by {
        if found != [] { assert multiset(found)[found[0]] > 0; }
      }
      assert found == [] ==> forall p :: p in rows ==> !(p.ownerUserId == user && p.status == Active) by {
        if found == [] {
          forall p | p in rows ensures !(p.ownerUserId == user && p.status == Active) {
            assert multiset(rows)[p] > 0;
          }
        }
      }
      |found|
    }

    /** `key_exists`: any row, whatever its status. */
    function KeyExists(key: string): (b: bool)
      reads this
      ensures b <==> exists p :: p in rows && p.uniqueKey == key
    {
      assert HasKey(rows, key) ==> exists p :: p in rows && p.uniqueKey == key by {
        if HasKey(rows, key) {
          var i :| 0 <= i < |rows| && rows[i].uniqueKey == key;
          assert rows[i] in rows;
        }
      }
      HasKey(rows, key)
    }

    /** `soft_delete_post`: one UPDATE of the row with that id, which stays
        in the table.  `now` is `datetime.now(UTC)`; `dbNow` is the
        database's `now()` that the column's `onupdate` writes to
        `updated_at`. */
    method SoftDeletePost(id: PostId, now: Timestamp, dbNow: Timestamp)
      requires Valid()
      modifies this
      ensures Valid()
      ensures |rows| == |old(rows)|
      ensures forall i :: 0 <= i < |rows| ==> rows[i] == SoftDeleted(old(rows[i]), id, now, dbNow)
      ensures events == old(events) + [Updated(id)]
    {
      rows := seq(|rows|, i requires 0 <= i < |rows| reads this => SoftDeleted(rows[i], id, now, dbNow));
      events := events + [Updated(id)];
    }

    /** `TransactionManager.commit` */
    method Commit()
      modifies this
      ensures rows == old(rows) && events == old(events) + [Committed]
    {
      events := events + [Committed];
    }
  }

  // ---------------------------------------------------------------------
  // Properties of the queries

  /** A created post is found by its id, and by its key while active. */
  lemma {:induction false} CreatedIsFound(rows: seq<Post>, post: Post)
    requires !HasId(rows, post.id) && !HasKey(rows, post.uniqueKey)
    ensures First(WithId(rows + [post], post.id)) == Some(post)
    ensures post.status == Active ==> First(ActiveWithKey(rows + [post], post.uniqueKey)) == Some(post)
  {
    var byId := (p: Post) => p.id == post.id;
    FilterSnoc(byId, rows, post);
    assert Filter(byId, rows) == [] by {
      if Filter(byId, rows) != [] {
        var q := Filter(byId, rows)[0];
        FilterIn(byId, rows, q);
        assert false;
      }
    }
    var byKey := (p: Post) => p.uniqueKey == post.uniqueKey && p.status == Active;
    FilterSnoc(byKey, rows, post);
    assert Filter(byKey, rows) == [] by {
      if Filter(byKey, rows) != [] {
        var q := Filter(byKey, rows)[0];
        FilterIn(byKey, rows, q);
        assert false;
      }
    }
  }

  /** Soft delete keeps every id and every key, so `key_exists` still
      reports a deleted post's key. */
  lemma SoftDeleteKeepsKeys(rows: seq<Post>, id: PostId, now: Timestamp, dbNow: Timestamp, key: string)
    ensures var after := seq(|rows|, i requires 0 <= i < |rows| => SoftDeleted(rows[i], id, now, dbNow));
            HasKey(after, key) == HasKey(rows, key) && UniqueRows(after) == UniqueRows(rows)
  {
    var after := seq(|rows|, i requires 0 <= i < |rows| => SoftDeleted(rows[i], id, now, dbNow));
    assert forall i :: 0 <= i < |rows| ==> after[i].id == rows[i].id && after[i].uniqueKey == rows[i].uniqueKey;
    if HasKey(rows, key) {
      var i :| 0 <= i < |rows| && rows[i].uniqueKey == key;
      assert after[i].uniqueKey == key;
    }
    if HasKey(after, key) {
      var i :| 0 <= i < |after| && after[i].uniqueKey == key;
      assert rows[i].uniqueKey == key;
    }
  }

  /** After a soft delete the row with that id is deleted and no longer
      counted or listed among its owner's posts. */
  lemma {:induction false} SoftDeletedLeavesActive(rows: seq<Post>, id: PostId, now: Timestamp, dbNow: Timestamp, user: UserId)
    ensures var after := seq(|rows|, i requires 0 <= i < |rows| => SoftDeleted(rows[i], id, now, dbNow));
            |ActiveOfUser(after, user)| <= |ActiveOfUser(rows, user)| &&
            forall p :: p in ActiveOfUser(after, user) ==> p.id != id
    decreases |rows|
  {
    var after := seq(|rows|, i requires 0 <= i < |rows| => SoftDeleted(rows[i], id, now, dbNow));
    var f := (p: Post) => p.ownerUserId == user && p.status == Active;
    if rows != [] {
      var tail := rows[1..];
      SoftDeletedLeavesActive(tail, id, now, dbNow, user);
      var afterTail := seq(|tail|, i requires 0 <= i < |tail| => SoftDeleted(tail[i], id, now, dbNow));
      assert after[1..] == afterTail;
      assert after[0] == SoftDeleted(rows[0], id, now, dbNow);
    }
  }

  /** With the whole count as the limit and no offset, `get_user_posts`
      lists exactly the posts `count_user_posts` counts. */
  lemma PageOfAll(rows: seq<Post>, user: UserId)
    ensures Window(SortNewestFirst(ActiveOfUser(rows, user)), 0, |ActiveOfUser(rows, user)|) ==
              Ok(SortNewestFirst(ActiveOfUser(rows, user)))
  {
    var s := SortNewestFirst(ActiveOfUser(rows, user));
    assert |multiset(s)| == |multiset(ActiveOfUser(rows, user))|;
    assert s[0..] == s;
  }

  /** The same on the store: a first page as long as the count lists every
      active post of the user, newest first. */
  lemma PageOfCount(store: PostStore, user: UserId)
    ensures store.GetUserPosts(user, 0, store.CountUserPosts(user)) ==
              Ok(SortNewestFirst(ActiveOfUser(store.rows, user)))
  {
    PageOfAll(store.rows, user);
  }
}
