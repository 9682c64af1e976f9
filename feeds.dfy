/**
 * The post lists the render pipeline shows: the public feed
 * (`renderPublicPosts`), the session user's own posts (`renderMyPosts`) and
 * the admin directory (`renderAdmin`).
 */
module Feeds {
  import opened Wrappers
  import opened Seqs
  import opened Domain
  import opened Identity

  function IsPublished(): Post -> bool
  {
    (p: Post) => p.status == Published
  }

  function OwnedBy(userId: string): Post -> bool
  {
    (p: Post) => p.userId == userId
  }

  /** app.js:123: the published posts, newest first. */
  function PublicFeed(posts: seq<Post>): (r: seq<Post>)
    ensures |r| <= |posts|
    ensures forall i :: 0 <= i < |r| ==> r[i].status == Published
  {
    Reverse(Filter(posts, IsPublished()))
  }

  /** The feed holds exactly the published posts. */
  lemma PublicFeedMembers(posts: seq<Post>, p: Post)
    ensures p in PublicFeed(posts) <==> p in posts && p.status == Published
  {
    FilterMembers(posts, IsPublished(), p);
    var f := Filter(posts, IsPublished());
    assert p in Reverse(f) <==> p in f by {
      if p in f {
        var i :| 0 <= i < |f| && f[i] == p;
        assert Reverse(f)[|f| - 1 - i] == p;
      }
    }
  }

  /** A post added last shows at the top of the feed if it is published, and nowhere otherwise. */
  lemma PublicFeedNewestFirst(posts: seq<Post>, p: Post)
    ensures PublicFeed(posts + [p]) == Keep(p, IsPublished()) + PublicFeed(posts)
  {
    FilterAppend(posts, [p], IsPublished());
    FilterCons(p, [], IsPublished());
    assert [p] == [p] + [];
    ReverseAppend(Filter(posts, IsPublished()), Keep(p, IsPublished()));
    assert Reverse(Keep(p, IsPublished())) == Keep(p, IsPublished());
  }

  /** app.js:191-196: the session user's posts, newest first; nothing without a session user. */
  function MyPosts(users: seq<User>, posts: seq<Post>, session: Option<string>): (r: seq<Post>)
    ensures SessionUser(users, session).None? ==> r == []
    ensures |r| <= |posts|
    ensures forall i :: 0 <= i < |r| ==> session.Some? && r[i].userId == session.value
  {
    match SessionUser(users, session)
    case None => []
    case Some(user) => Reverse(Filter(posts, OwnedBy(user.id)))
  }

  /** With a session user, the list holds exactly that user's posts. */
  lemma MyPostsMembers(users: seq<User>, posts: seq<Post>, session: Option<string>, p: Post)
    requires SessionUser(users, session).Some?
    ensures p in MyPosts(users, posts, session) <==> p in posts && p.userId == session.value
  {
    var id := SessionUser(users, session).value.id;
    FilterMembers(posts, OwnedBy(id), p);
    var f := Filter(posts, OwnedBy(id));
    if p in f {
      var i :| 0 <= i < |f| && f[i] == p;
      assert Reverse(f)[|f| - 1 - i] == p;
    }
  }

  /**
   * A post added last heads the session user's list if it is theirs, and
   * leaves the list as it was otherwise.
   */
  lemma MyPostsNewestFirst(users: seq<User>, posts: seq<Post>, session: Option<string>, p: Post)
    requires SessionUser(users, session).Some?
    ensures MyPosts(users, posts + [p], session) == Keep(p, OwnedBy(session.value)) + MyPosts(users, posts, session)
  {
    var id := SessionUser(users, session).value.id;
    FilterAppend(posts, [p], OwnedBy(id));
    FilterCons(p, [], OwnedBy(id));
    assert [p] == [p] + [];
    ReverseAppend(Filter(posts, OwnedBy(id)), Keep(p, OwnedBy(id)));
    assert Reverse(Keep(p, OwnedBy(id))) == Keep(p, OwnedBy(id));
  }

  /** One line of the admin user directory. */
  datatype UserRow = UserRow(name: string, email: string, role: Role)

  /** One line of the admin post directory, with its like and comment counts. */
  datatype PostRow = PostRow(title: string, status: Status, likes: nat, comments: nat)

  datatype AdminPanel = AdminPanel(users: seq<UserRow>, posts: seq<PostRow>)

  function RowOfUser(u: User): UserRow
  {
    UserRow(u.name, u.email, u.role)
  }

  function RowOfPost(p: Post): PostRow
  {
    PostRow(p.title, p.status, |p.likes|, |p.comments|)
  }

  /**
   * app.js:239-256: for an admin, every user in order and every post newest
   * first; for anyone else the panel is left as it was.
   */
  function RenderAdmin(users: seq<User>, posts: seq<Post>, session: Option<string>): (r: Option<AdminPanel>)
    ensures r.Some? <==> IsAdmin(SessionUser(users, session))
    ensures r.Some? ==> |r.value.users| == |users| && |r.value.posts| == |posts|
    ensures r.Some? ==> forall i :: 0 <= i < |users| ==> r.value.users[i] == RowOfUser(users[i])
    ensures r.Some? ==> forall i :: 0 <= i < |posts| ==> r.value.posts[i] == RowOfPost(posts[|posts| - 1 - i])
  {
    if !IsAdmin(SessionUser(users, session)) then None
    else
      var newestFirst := Reverse(posts);
      Some(AdminPanel(
        seq(|users|, i requires 0 <= i < |users| => RowOfUser(users[i])),
        seq(|newestFirst|, i requires 0 <= i < |newestFirst| => RowOfPost(newestFirst[i]))))
  }
}
