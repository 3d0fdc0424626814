/** The post handlers: create, list newest first, delete with an ownership
    check, like and unlike. The principal is the user id a verified token
    carried. */
module PostRoutes {
  import opened Base
  import opened JsArray
  import opened PostModel
  import opened Store

  /** The ids of the stored posts, in store order. */
  function PostIds(posts: seq<Post>): seq<PostId> {
    Map(posts, PostKey)
  }

  /** `Post.findById(key)`: the position of the post with that id, or -1 for
      none. An undefined key is queried as `{ _id: null }`, which matches no
      post; `None` stands for it. */
  function FindPost(posts: seq<Post>, key: Option<PostId>): (i: int)
    ensures -1 <= i < |posts|
    ensures i >= 0 ==> key == Some(posts[i].id)
    ensures i >= 0 ==> forall j :: 0 <= j < i ==> key != Some(posts[j].id)
    ensures i == -1 <==> forall j :: 0 <= j < |posts| ==> key != Some(posts[j].id)
  {
    if key.None? then -1
    else
      var ids := PostIds(posts);
      var i := IndexOf(ids, key.value);
      assert i >= 0 ==> forall j :: 0 <= j < i ==> ids[..i][j] == posts[j].id;
      assert i < 0 ==> forall j :: 0 <= j < |posts| ==> ids[j] == posts[j].id;
      i
  }

  /** Replacing a post by one with the same id and unique likers keeps the store's invariant. */
  lemma ReplacePostKeepsValid(posts: seq<Post>, nextPostId: nat, i: nat, p: Post)
    requires PostsValid(posts, nextPostId) && i < |posts|
    requires p.id == posts[i].id && UniqueLikers(p.likes)
    ensures PostsValid(posts[i := p], nextPostId)
  {
    var q := posts[i := p];
    forall j, k | 0 <= j < k < |q| ensures PostKey(q[j]) != PostKey(q[k]) {
      assert PostKey(q[j]) == PostKey(posts[j]) && PostKey(q[k]) == PostKey(posts[k]);
    }
  }

  /** Deleting the post at `i` keeps the store's invariant. */
  lemma RemovePostKeepsValid(posts: seq<Post>, nextPostId: nat, i: nat)
    requires PostsValid(posts, nextPostId) && i < |posts|
    ensures PostsValid(posts[..i] + posts[i + 1..], nextPostId)
  {
    DistinctByRemoveAt(posts, PostKey, i);
    var q := posts[..i] + posts[i + 1..];
    forall j | 0 <= j < |q| ensures q[j].id < nextPostId && UniqueLikers(q[j].likes) {
      assert q[j] == posts[if j < i then j else j + 1];
    }
  }

  /** POST /posts: a new post by the principal, carrying the author's name
      and avatar as they are now. */
  method CreatePost(db: Database, principal: UserId, text: Option<string>, now: Date)
    returns (r: Result<Post>)
    requires db.Valid()
    modifies db
    ensures db.Valid()
    ensures db.users == old(db.users) && db.profiles == old(db.profiles)
    ensures db.nextItemId == old(db.nextItemId)
    ensures !Truthy(text) ==>
      r == Err(ValidationFailed) && db.posts == old(db.posts) && db.nextPostId == old(db.nextPostId)
    ensures Truthy(text) && principal !in old(db.users) ==>
      r == Err(ServerError) && db.posts == old(db.posts) && db.nextPostId == old(db.nextPostId)
    ensures Truthy(text) && principal in old(db.users) ==>
      && r.Ok?
      && Some(r.value.text) == text
      && r.value.name == old(db.users)[principal].name
      && r.value.avatar == old(db.users)[principal].avatar
      && r.value.user == principal && r.value.likes == [] && r.value.date == now
      && r.value.id !in PostIds(old(db.posts))
      && db.posts == old(db.posts) + [r.value]
      && db.nextPostId == old(db.nextPostId) + 1
  {
    if !Truthy(text) {
      return Err(ValidationFailed);
    }
    if principal !in db.users {
      return Err(ServerError);
    }
    var author := db.users[principal];
    var post := Post(db.nextPostId, principal, text.value, author.name, author.avatar, [], now);
    DistinctByAppend(db.posts, PostKey, post);
    db.posts := db.posts + [post];
    db.nextPostId := db.nextPostId + 1;
    r := Ok(post);
  }

  /** GET /posts: every stored post, newest first. */
  method ListPosts(db: Database) returns (r: seq<Post>)
    ensures NewestFirst(r)
    ensures multiset(r) == multiset(db.posts)
  {
    r := SortNewestFirst(db.posts);
  }

  /** The delete handler with the lookup key it passes to `findById`. */
  method DeleteByKey(db: Database, principal: UserId, key: Option<PostId>)
    returns (r: Result<()>)
    requires db.Valid()
    modifies db
    ensures db.Valid()
    ensures db.users == old(db.users) && db.profiles == old(db.profiles)
    ensures db.nextItemId == old(db.nextItemId) && db.nextPostId == old(db.nextPostId)
    ensures var i := FindPost(old(db.posts), key);
      && (i < 0 ==> r == Err(NotFound) && db.posts == old(db.posts))
      && (i >= 0 && old(db.posts)[i].user != principal ==>
            r == Err(NotAuthorized) && db.posts == old(db.posts))
      && (i >= 0 && old(db.posts)[i].user == principal ==>
            r == Ok(()) && db.posts == old(db.posts)[..i] + old(db.posts)[i + 1..])
  {
    var i := FindPost(db.posts, key);
    if i < 0 {
      return Err(NotFound);
    }
    if db.posts[i].user != principal {
      return Err(NotAuthorized);
    }
    RemovePostKeepsValid(db.posts, db.nextPostId, i);
    db.posts := db.posts[..i] + db.posts[i + 1..];
    r := Ok(());
  }

  /** The lookup key of the delete handler as written: it reads the route
      parameter `Post_id`, which the route (declared with `:post_id`) never
      sets, so the key is undefined. */
  const UndefinedPostKey: Option<PostId> := None

  /** DELETE /posts/:post_id as written: the lookup never finds the post, so
      every request is answered "Post not Found" and nothing is deleted. */
  method DeletePostAsWritten(db: Database, principal: UserId, postId: PostId)
    returns (r: Result<()>)
    requires db.Valid()
    modifies db
    ensures db.Valid()
    ensures r == Err(NotFound)
    ensures db.posts == old(db.posts) && db.users == old(db.users) && db.profiles == old(db.profiles)
    ensures db.nextItemId == old(db.nextItemId) && db.nextPostId == old(db.nextPostId)
  {
    r := DeleteByKey(db, principal, UndefinedPostKey);
  }

  /** The discrepancy on one post: its owner's request finds it under the
      declared parameter and misses it under the one the handler reads. */
  lemma OwnerDeleteMissesPost()
    ensures var posts := [Post(7, "alice", "hello", "Alice", "", [], 0)];
      FindPost(posts, UndefinedPostKey) == -1 && FindPost(posts, Some(7)) == 0
  {
    var posts := [Post(7, "alice", "hello", "Alice", "", [], 0)];
    assert PostIds(posts) == [7];
  }

  /** DELETE /posts/:post_id as intended: only the post's owner removes it;
      anyone else is refused and the store is unchanged. */
  method DeletePost(db: Database, principal: UserId, postId: PostId)
    returns (r: Result<()>)
    requires db.Valid()
    modifies db
    ensures db.Valid()
    ensures db.users == old(db.users) && db.profiles == old(db.profiles)
    ensures db.nextItemId == old(db.nextItemId) && db.nextPostId == old(db.nextPostId)
    ensures (forall j :: 0 <= j < |old(db.posts)| ==> old(db.posts)[j].id != postId) ==>
      r == Err(NotFound) && db.posts == old(db.posts)
    ensures forall j :: 0 <= j < |old(db.posts)| && old(db.posts)[j].id == postId ==>
      && (old(db.posts)[j].user != principal ==> r == Err(NotAuthorized) && db.posts == old(db.posts))
      && (old(db.posts)[j].user == principal ==>
            r == Ok(()) && db.posts == old(db.posts)[..j] + old(db.posts)[j + 1..])
  {
    ghost var before := db.posts;
    r := DeleteByKey(db, principal, Some(postId));
    forall j | 0 <= j < |before| && before[j].id == postId
      ensures FindPost(before, Some(postId)) == j
    {
      var i := FindPost(before, Some(postId));
      assert PostKey(before[i]) == PostKey(before[j]);
    }
  }

  /** PUT /posts/like/:id. */
  method LikePost(db: Database, principal: UserId, postId: PostId)
    returns (r: Result<seq<Like>>)
    requires db.Valid()
    modifies db
    ensures db.Valid()
    ensures db.users == old(db.users) && db.profiles == old(db.profiles)
    ensures db.nextItemId == old(db.nextItemId) && db.nextPostId == old(db.nextPostId)
    ensures var i := FindPost(old(db.posts), Some(postId));
      && (i < 0 ==> r == Err(ServerError) && db.posts == old(db.posts))
      && (i >= 0 && principal in LikeUsers(old(db.posts)[i].likes) ==>
            r == Err(AlreadyLiked) && db.posts == old(db.posts))
      && (i >= 0 && principal !in LikeUsers(old(db.posts)[i].likes) ==>
            && r == Ok(Liked(old(db.posts)[i].likes, principal))
            && db.posts == old(db.posts)[i := old(db.posts)[i].(likes := r.value)])
  {
    var i := FindPost(db.posts, Some(postId));
    if i < 0 {
      return Err(ServerError);
    }
    var post := db.posts[i];
    LikesByNonEmpty(post.likes, principal);
    if |LikesBy(post.likes, principal)| > 0 {
      return Err(AlreadyLiked);
    }
    LikeKeepsUnique(post.likes, principal);
    post := post.(likes := Liked(post.likes, principal));
    ReplacePostKeepsValid(db.posts, db.nextPostId, i, post);
    db.posts := db.posts[i := post];
    r := Ok(post.likes);
  }

  /** PUT /posts/unlike/:id. */
  method UnlikePost(db: Database, principal: UserId, postId: PostId)
    returns (r: Result<seq<Like>>)
    requires db.Valid()
    modifies db
    ensures db.Valid()
    ensures db.users == old(db.users) && db.profiles == old(db.profiles)
    ensures db.nextItemId == old(db.nextItemId) && db.nextPostId == old(db.nextPostId)
    ensures var i := FindPost(old(db.posts), Some(postId));
      && (i < 0 ==> r == Err(ServerError) && db.posts == old(db.posts))
      && (i >= 0 && principal !in LikeUsers(old(db.posts)[i].likes) ==>
            r == Err(NotYetLiked) && db.posts == old(db.posts))
      && (i >= 0 && principal in LikeUsers(old(db.posts)[i].likes) ==>
            && r == Ok(Unliked(old(db.posts)[i].likes, principal))
            && db.posts == old(db.posts)[i := old(db.posts)[i].(likes := r.value)])
  {
    var i := FindPost(db.posts, Some(postId));
    if i < 0 {
      return Err(ServerError);
    }
    var post := db.posts[i];
    LikesByNonEmpty(post.likes, principal);
    if |LikesBy(post.likes, principal)| == 0 {
      return Err(NotYetLiked);
    }
    UnlikeKeepsUnique(post.likes, principal);
    post := post.(likes := Unliked(post.likes, principal));
    ReplacePostKeepsValid(db.posts, db.nextPostId, i, post);
    db.posts := db.posts[i := post];
    r := Ok(post.likes);
  }
}
