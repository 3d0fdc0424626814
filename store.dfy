/** The document store the handlers load from and save to: the users, the
    profiles (found by their owner's id), the posts in insertion order, and the
    counters that stand for ObjectId generation. */
module Store {
  import opened Base
  import opened JsArray
  import opened ProfileModel
  import opened PostModel

  /** A user account; only the fields the handlers read. */
  datatype User = User(name: string, email: string, avatar: string)

  /** What every stored profile satisfies: it is filed under its owner, it
      passes the schema's validation, and its item ids were issued before
      `nextItemId` and are distinct within each array. */
  predicate ProfileInvariant(owner: UserId, p: Profile, nextItemId: nat) {
    && p.user == owner
    && ValidProfile(p)
    && (forall e :: e in p.experience ==> e.id < nextItemId)
    && (forall e :: e in p.education ==> e.id < nextItemId)
    && DistinctBy(p.experience, ExperienceId)
    && DistinctBy(p.education, EducationId)
  }

  predicate ProfilesValid(profiles: map<UserId, Profile>, nextItemId: nat) {
    forall owner :: owner in profiles ==> ProfileInvariant(owner, profiles[owner], nextItemId)
  }

  /** Post ids are distinct and were issued before `nextPostId`; no user
      liked a post twice. */
  predicate PostsValid(posts: seq<Post>, nextPostId: nat) {
    && DistinctBy(posts, PostKey)
    && (forall i :: 0 <= i < |posts| ==> posts[i].id < nextPostId)
    && (forall i :: 0 <= i < |posts| ==> UniqueLikers(posts[i].likes))
  }

  class Database {
    var users: map<UserId, User>
    var profiles: map<UserId, Profile>
    var posts: seq<Post>
    var nextItemId: nat
    var nextPostId: nat

    ghost predicate Valid()
      reads this
    {
      ProfilesValid(profiles, nextItemId) && PostsValid(posts, nextPostId)
    }

    /** A store holding the given accounts and no profile or post. */
    constructor (accounts: map<UserId, User>)
      ensures Valid()
      ensures users == accounts && profiles == map[] && posts == []
    {
      users := accounts;
      profiles := map[];
      posts := [];
      nextItemId := 0;
      nextPostId := 0;
    }
  }
}
