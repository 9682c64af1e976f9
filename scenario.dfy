/**
 * An end-to-end run of the handlers: two registrations, a draft that stays
 * out of the public feed until its author publishes it, likes by both users,
 * and the admin's directory at the end. Names, emails and post fields are
 * any strings that are already trimmed; the two emails and the two ids differ.
 */
module Scenario {
  import opened Wrappers
  import opened Seqs
  import opened Text
  import opened Domain
  import opened Identity
  import opened Views
  import opened Feeds
  import opened Handlers

  /** The users and posts the run starts from and produces. */
  datatype Cast = Cast(ua: string, ub: string, nameA: string, nameB: string, emailA: string, emailB: string,
                       passA: string, passB: string, pid: string, title: string, image: string, content: string)

  predicate WellChosen(c: Cast)
  {
    && c.ua != c.ub && c.emailA != c.emailB && c.pid != ""
    && Trim(c.nameA) == c.nameA && Trim(c.nameB) == c.nameB
    && Trim(c.emailA) == c.emailA && Trim(c.emailB) == c.emailB
    && Trim(c.title) == c.title && Trim(c.image) == c.image && Trim(c.content) == c.content
  }

  function UserA(c: Cast): User { User(c.ua, c.nameA, c.emailA, c.passA, "", "", Admin) }
  function UserB(c: Cast): User { User(c.ub, c.nameB, c.emailB, c.passB, "", "", Member) }

  function Users(c: Cast): seq<User> { [UserA(c), UserB(c)] }

  function ThePost(c: Cast, status: Status, likes: seq<string>, at: string): Post
  {
    Post(c.pid, c.ub, c.title, c.image, c.content, status, likes, [], at)
  }

  lemma FirstRegistration(c: Cast)
    requires WellChosen(c)
    ensures Register(State([], [], None, Home), c.ua, c.nameA, c.emailA, c.passA)
      == Step(State([UserA(c)], [], Some(c.ua), "profile"), Applied)
  {
    var r := Register(State([], [], None, Home), c.ua, c.nameA, c.emailA, c.passA);
    assert r.state.users == [r.state.users[0]];
  }

  lemma SecondRegistration(c: Cast)
    requires WellChosen(c)
    ensures Register(State([UserA(c)], [], Some(c.ua), "profile"), c.ub, c.nameB, c.emailB, c.passB)
      == Step(State(Users(c), [], Some(c.ub), "profile"), Applied)
  {
    var s := State([UserA(c)], [], Some(c.ua), "profile");
    assert s.users[0].email != Trim(c.emailB);
    var r := Register(s, c.ub, c.nameB, c.emailB, c.passB);
    assert r.outcome == Applied;
    assert r.state.users[1] == UserB(c);
    assert r.state.users == Users(c) by {
      assert r.state.users[..1] == [UserA(c)];
    }
  }

  lemma Registrations(c: Cast)
    requires WellChosen(c)
    ensures var s1 := Register(State([], [], None, Home), c.ua, c.nameA, c.emailA, c.passA);
      var s2 := Register(s1.state, c.ub, c.nameB, c.emailB, c.passB);
      && s1.outcome == Applied && s2.outcome == Applied
      && s2.state == State(Users(c), [], Some(c.ub), "profile")
  {
    FirstRegistration(c);
    SecondRegistration(c);
  }

  lemma DraftThenPublish(c: Cast, t1: string, t2: string, freshId: string)
    requires WellChosen(c)
    ensures var s := State(Users(c), [], Some(c.ub), "profile");
      var s3 := SavePost(s, "", c.title, c.image, c.content, Draft, t1, c.pid);
      var s4 := SavePost(s3.state, c.pid, c.title, c.image, c.content, Published, t2, freshId);
      && s3.state == State(Users(c), [ThePost(c, Draft, [], t1)], Some(c.ub), "my-posts")
      && s4.state == State(Users(c), [ThePost(c, Published, [], t2)], Some(c.ub), "my-posts")
  {
    var s := State(Users(c), [], Some(c.ub), "profile");
    SessionUserIndexIs(s.users, c.ub, 1);
    var s3 := SavePost(s, "", c.title, c.image, c.content, Draft, t1, c.pid);
    assert s3.state.posts == [s3.state.posts[0]];
    assert EditTarget(s3.state.posts, c.pid, c.ub) == Some(0);
  }

  lemma LoginAs(c: Cast, posts: seq<Post>, session: Option<string>, view: string)
    requires WellChosen(c)
    ensures Login(State(Users(c), posts, session, view), c.emailA, c.passA).state
      == State(Users(c), posts, Some(c.ua), Home)
    ensures Login(State(Users(c), posts, session, view), c.emailB, c.passB).state
      == State(Users(c), posts, Some(c.ub), Home)
  {
    var users := [UserA(c), UserB(c)];
    assert FirstMatch(users, 0, c.emailA, c.passA);
    assert FirstMatch(users, 1, c.emailB, c.passB);
  }

  lemma LikeAs(c: Cast, likes: seq<string>, at: string, i: nat, uid: string, now: string)
    requires WellChosen(c) && i < 2 && uid == [c.ua, c.ub][i] && uid !in likes
    ensures Like(State(Users(c), [ThePost(c, Published, likes, at)], Some(uid), Home), c.pid, now).state
      == State(Users(c), [ThePost(c, Published, likes + [uid], now)], Some(uid), Home)
  {
    var s := State(Users(c), [ThePost(c, Published, likes, at)], Some(uid), Home);
    SessionUserIndexIs(s.users, uid, i);
    assert PostIndex(s.posts, c.pid) == Some(0);
    var r := Like(s, c.pid, now);
    assert r.state.posts == [r.state.posts[0]];
  }

  lemma FeedHidesDraft(c: Cast, t1: string, t2: string)
    ensures PublicFeed([ThePost(c, Draft, [], t1)]) == []
    ensures PublicFeed([ThePost(c, Published, [], t2)]) == [ThePost(c, Published, [], t2)]
  {
    var draft := ThePost(c, Draft, [], t1);
    var p4 := ThePost(c, Published, [], t2);
    PublicFeedMembers([draft], draft);
    PublicFeedNewestFirst([], p4);
    assert [] + [p4] == [p4];
  }

  /** B's published post gets A's like, then B's, in that order. */
  lemma LikesInOrder(c: Cast, t2: string, t3: string, t4: string)
    requires WellChosen(c)
    ensures
      var s5 := Login(State(Users(c), [ThePost(c, Published, [], t2)], Some(c.ub), "my-posts"), c.emailA, c.passA).state;
      var s6 := Like(s5, c.pid, t3).state;
      var s7 := Logout(s6).state;
      var s8 := Login(s7, c.emailB, c.passB).state;
      var s9 := Like(s8, c.pid, t4).state;
      var s10 := Login(s9, c.emailA, c.passA).state;
      && s9.posts == [ThePost(c, Published, [c.ua, c.ub], t4)]
      && s10 == State(Users(c), [ThePost(c, Published, [c.ua, c.ub], t4)], Some(c.ua), Home)
  {
    var users := Users(c);
    var p4 := ThePost(c, Published, [], t2);
    var p6 := ThePost(c, Published, [c.ua], t3);
    var p9 := ThePost(c, Published, [c.ua, c.ub], t4);
    var s5 := Login(State(users, [p4], Some(c.ub), "my-posts"), c.emailA, c.passA).state;
    assert s5 == State(users, [p4], Some(c.ua), Home) by { LoginAs(c, [p4], Some(c.ub), "my-posts"); }
    var s6 := Like(s5, c.pid, t3).state;
    assert s6 == State(users, [p6], Some(c.ua), Home) by {
      LikeAs(c, [], t2, 0, c.ua, t3);
      assert [] + [c.ua] == [c.ua];
    }
    var s7 := Logout(s6).state;
    assert s7 == State(users, [p6], None, Home);
    var s8 := Login(s7, c.emailB, c.passB).state;
    assert s8 == State(users, [p6], Some(c.ub), Home) by { LoginAs(c, [p6], None, Home); }
    var s9 := Like(s8, c.pid, t4).state;
    assert s9 == State(users, [p9], Some(c.ub), Home) by { SecondLike(c, t3, t4); }
    LoginAs(c, [p9], Some(c.ub), Home);
  }

  lemma SecondLike(c: Cast, t3: string, t4: string)
    requires WellChosen(c)
    ensures Like(State(Users(c), [ThePost(c, Published, [c.ua], t3)], Some(c.ub), Home), c.pid, t4).state
      == State(Users(c), [ThePost(c, Published, [c.ua, c.ub], t4)], Some(c.ub), Home)
  {
    LikeAs(c, [c.ua], t3, 1, c.ub, t4);
    assert [c.ua] + [c.ub] == [c.ua, c.ub];
  }

  lemma AdminDirectory(c: Cast, t4: string)
    requires WellChosen(c)
    ensures RenderAdmin(Users(c), [ThePost(c, Published, [c.ua, c.ub], t4)], Some(c.ua)) == Some(AdminPanel(
           [UserRow(c.nameA, c.emailA, Admin), UserRow(c.nameB, c.emailB, Member)],
           [PostRow(c.title, Published, 2, 0)]))
  {
    SessionUserIndexIs(Users(c), c.ua, 0);
    var panel := RenderAdmin(Users(c), [ThePost(c, Published, [c.ua, c.ub], t4)], Some(c.ua)).value;
    assert panel.users == [UserRow(c.nameA, c.emailA, Admin), UserRow(c.nameB, c.emailB, Member)];
    assert panel.posts == [PostRow(c.title, Published, 2, 0)];
  }

  /** The whole run: what the feed and the admin directory show along the way. */
  lemma TwoUsersOnePost(c: Cast, t1: string, t2: string, t3: string, t4: string, freshId: string)
    requires WellChosen(c)
    ensures
      var s0 := State([], [], None, Home);
      var s1 := Register(s0, c.ua, c.nameA, c.emailA, c.passA).state;
      var s2 := Register(s1, c.ub, c.nameB, c.emailB, c.passB).state;
      var s3 := SavePost(s2, "", c.title, c.image, c.content, Draft, t1, c.pid).state;
      var s4 := SavePost(s3, c.pid, c.title, c.image, c.content, Published, t2, freshId).state;
      var s5 := Login(s4, c.emailA, c.passA).state;
      var s6 := Like(s5, c.pid, t3).state;
      var s7 := Logout(s6).state;
      var s8 := Login(s7, c.emailB, c.passB).state;
      var s9 := Like(s8, c.pid, t4).state;
      var s10 := Login(s9, c.emailA, c.passA).state;
      && s2.users == [UserA(c), UserB(c)]
      && PublicFeed(s3.posts) == []
      && PublicFeed(s4.posts) == s4.posts
      && s9.posts == [ThePost(c, Published, [c.ua, c.ub], t4)]
      && RenderAdmin(s10.users, s10.posts, s10.sessionUserId) == Some(AdminPanel(
           [UserRow(c.nameA, c.emailA, Admin), UserRow(c.nameB, c.emailB, Member)],
           [PostRow(c.title, Published, 2, 0)]))
  {
    Registrations(c);
    DraftThenPublish(c, t1, t2, freshId);
    FeedHidesDraft(c, t1, t2);
    LikesInOrder(c, t2, t3, t4);
    AdminDirectory(c, t4);
  }
}
