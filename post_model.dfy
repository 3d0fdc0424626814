/** The post document as the post handlers create and change it, and the
    guards and edits they apply to its `likes` array. */
module PostModel {
  import opened Base
  import opened JsArray

  /** One like mark: the user who liked. */
  datatype Like = Like(user: UserId)

  /** A post; `name` and `avatar` are copies of the author's at creation time. */
  datatype Post = Post(
    id: PostId,
    user: UserId,
    text: string,
    name: string,
    avatar: string,
    likes: seq<Like>,
    date: Date)

  function PostKey(p: Post): PostId { p.id }
  function LikeUser(l: Like): UserId { l.user }

  /** `likes.map((like) => like.user.toString())`. */
  function LikeUsers(likes: seq<Like>): seq<UserId> {
    Map(likes, LikeUser)
  }

  /** `likes.filter((like) => like.user.toString() === u)`. */
  function LikesBy(likes: seq<Like>, u: UserId): seq<Like>
  {
    if likes == [] then []
    else if likes[0].user == u then [likes[0]] + LikesBy(likes[1..], u)
    else LikesBy(likes[1..], u)
  }

  /** Every user liked a post at most once. */
  predicate UniqueLikers(likes: seq<Like>) {
    DistinctBy(likes, LikeUser)
  }

  /** The filter the guards test is non-empty exactly when `u` is among the likers. */
  lemma {:induction false} LikesByNonEmpty(likes: seq<Like>, u: UserId)
    ensures |LikesBy(likes, u)| > 0 <==> u in LikeUsers(likes)
  {
    if likes != [] {
      LikesByNonEmpty(likes[1..], u);
      assert LikeUsers(likes) == [likes[0].user] + LikeUsers(likes[1..]);
    }
  }

  /** With unique likers the filter holds at most one entry per user. */
  lemma {:induction false} AtMostOneLikeEach(likes: seq<Like>, u: UserId)
    requires UniqueLikers(likes)
    ensures |LikesBy(likes, u)| <= 1
  {
    if likes != [] {
      assert UniqueLikers(likes[1..]) by {
        forall i, j | 0 <= i < j < |likes[1..]|
          ensures LikeUser(likes[1..][i]) != LikeUser(likes[1..][j])
        {
          assert likes[1..][i] == likes[i + 1] && likes[1..][j] == likes[j + 1];
        }
      }
      AtMostOneLikeEach(likes[1..], u);
      if likes[0].user == u {
        assert u !in LikeUsers(likes[1..]) by {
          forall j | 0 <= j < |likes[1..]| ensures LikeUsers(likes[1..])[j] != u {
            assert LikeUser(likes[0]) != LikeUser(likes[j + 1]);
          }
        }
        LikesByNonEmpty(likes[1..], u);
      }
    }
  }

  /** `likes.push({ user: u })`. */
  function Liked(likes: seq<Like>, u: UserId): (r: seq<Like>)
    ensures |r| == |likes| + 1 && r[..|likes|] == likes && r[|likes|].user == u
  {
    likes + [Like(u)]
  }

  /** `likes.splice(likes.map(...).indexOf(u), 1)`. */
  function Unliked(likes: seq<Like>, u: UserId): seq<Like>
  {
    Splice1(likes, IndexOf(LikeUsers(likes), u))
  }

  /** When `u` liked the post, unliking removes exactly the first like by `u`
      and keeps the order of the others. */
  lemma UnlikeRemovesFirst(likes: seq<Like>, u: UserId)
    requires u in LikeUsers(likes)
    ensures Unliked(likes, u) == RemoveFirst(likes, Like(u))
    ensures |Unliked(likes, u)| == |likes| - 1
  {
    var users := LikeUsers(likes);
    var k := IndexOf(users, u);
    assert likes[k] == Like(u);
    assert Like(u) !in likes[..k] by {
      forall i | 0 <= i < k ensures likes[i] != Like(u) {
        assert users[..k][i] == likes[i].user;
      }
    }
    assert IndexOf(likes, Like(u)) == k;
    SpliceAtIndexOfRemovesFirst(likes, Like(u));
  }

  /** Liking keeps "one like per user" when the guard let the like through. */
  lemma LikeKeepsUnique(likes: seq<Like>, u: UserId)
    requires UniqueLikers(likes) && u !in LikeUsers(likes)
    ensures UniqueLikers(Liked(likes, u))
  {
    forall i | 0 <= i < |likes| ensures LikeUser(likes[i]) != LikeUser(Like(u)) {
      assert LikeUsers(likes)[i] == likes[i].user;
    }
    DistinctByAppend(likes, LikeUser, Like(u));
  }

  /** Unliking keeps "one like per user" and removes no other user's like. */
  lemma UnlikeKeepsUnique(likes: seq<Like>, u: UserId)
    requires UniqueLikers(likes)
    ensures UniqueLikers(Unliked(likes, u))
    ensures forall l :: l in Unliked(likes, u) ==> l in likes
  {
    SpliceKeeps(likes, LikeUser, IndexOf(LikeUsers(likes), u));
  }

  /** Liking a post the principal had not liked and then unliking it gives
      back the original likes. */
  lemma LikeThenUnlikeRestores(likes: seq<Like>, u: UserId)
    requires u !in LikeUsers(likes)
    ensures Unliked(Liked(likes, u), u) == likes
  {
    var users := LikeUsers(likes);
    assert LikeUsers(Liked(likes, u)) == users + [u];
    PushThenSpliceRestores(users, u);
    assert IndexOf(LikeUsers(Liked(likes, u)), u) == |likes|;
    assert Liked(likes, u)[..|likes|] == likes;
  }

  /** After a like, exactly one entry belongs to the principal, so a second
      like is refused. */
  lemma LikedOnce(likes: seq<Like>, u: UserId)
    requires UniqueLikers(likes) && u !in LikeUsers(likes)
    ensures |LikesBy(Liked(likes, u), u)| == 1
  {
    LikeKeepsUnique(likes, u);
    AtMostOneLikeEach(Liked(likes, u), u);
    var l := Liked(likes, u);
    assert LikeUsers(l)[|likes|] == u;
    LikesByNonEmpty(l, u);
  }

  /** Posts ordered by date, newest first (`sort({ date: -1 })`). */
  predicate NewestFirst(posts: seq<Post>) {
    forall i, j :: 0 <= i < j < |posts| ==> posts[i].date >= posts[j].date
  }

  /** Places `p` before the first post not newer than it. */
  function InsertNewestFirst(p: Post, sorted: seq<Post>): (r: seq<Post>)
    requires NewestFirst(sorted)
    ensures NewestFirst(r)
    ensures multiset(r) == multiset(sorted) + multiset{p}
  {
    if sorted == [] || p.date >= sorted[0].date then [p] + sorted
    else
      var rest := InsertNewestFirst(p, sorted[1..]);
      NotNewerThanHead(p, sorted, rest);
      [sorted[0]] + rest
  }

  /** What is inserted after the head of a newest-first listing is not newer than it. */
  lemma NotNewerThanHead(p: Post, sorted: seq<Post>, rest: seq<Post>)
    requires NewestFirst(sorted) && sorted != [] && p.date < sorted[0].date
    requires multiset(rest) == multiset(sorted[1..]) + multiset{p}
    ensures forall q :: q in rest ==> q.date <= sorted[0].date
    ensures multiset([sorted[0]] + rest) == multiset(sorted) + multiset{p}
  {
    forall q | q in rest ensures q.date <= sorted[0].date {
      assert q in multiset(rest);
      if q != p {
        assert q in sorted[1..];
      }
    }
    assert sorted == [sorted[0]] + sorted[1..];
  }

  /** The listing order: all posts, newest first. */
  function SortNewestFirst(posts: seq<Post>): (r: seq<Post>)
    ensures NewestFirst(r)
    ensures multiset(r) == multiset(posts)
  {
    if posts == [] then []
    else
      assert posts == [posts[0]] + posts[1..];
      InsertNewestFirst(posts[0], SortNewestFirst(posts[1..]))
  }
}
