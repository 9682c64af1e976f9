/**
 * The event handlers of app.js as functions from the state before the event
 * to the state after it and the way the handler ended. `uid()` and `now()`
 * results are parameters. A lookup that finds nothing makes the source
 * dereference `undefined`; the TypeError it throws stops the handler before
 * anything has been written, so that case is the outcome `Threw` with the
 * state unchanged.
 */
module Handlers {
  import opened Wrappers
  import opened Seqs
  import opened Text
  import opened Domain
  import opened Identity
  import opened Views

  datatype Step = Step(state: State, outcome: Outcome)

  /** `setView`: select a view, then render (which may reset it). */
  function SetView(s: State, view: string): (r: State)
    ensures r.users == s.users && r.posts == s.posts && r.sessionUserId == s.sessionUserId
    ensures ViewAllowed(view, CurrentUser(s)) ==> r.view == view
    ensures !ViewAllowed(view, CurrentUser(s)) ==> r.view == Home
  {
    Render(s.(view := view))
  }

  // ---------------------------------------------------------------- register

  /** The `some` test of app.js:262: a user already has this email. */
  predicate EmailTaken(users: seq<User>, email: string)
    ensures EmailTaken(users, email) <==> exists j :: 0 <= j < |users| && users[j].email == email
  {
    AnyMeans(users, (u: User) => u.email == email);
    Any(users, (u: User) => u.email == email)
  }

  /**
   * The register form (app.js:259-281): an email already on file, compared
   * after trimming, is refused with an alert; otherwise one user is appended,
   * an admin exactly when there were no users, and the session becomes theirs.
   */
  function Register(s: State, id: string, name: string, email: string, password: string): (r: Step)
    ensures r.outcome == Applied || r.outcome == Alerted
    ensures r.outcome == Alerted <==> exists j :: 0 <= j < |s.users| && s.users[j].email == Trim(email)
    ensures r.outcome == Alerted ==> r.state == s
    ensures r.outcome == Applied ==>
      && |r.state.users| == |s.users| + 1
      && r.state.users[..|s.users|] == s.users
      && r.state.sessionUserId == Some(id)
      && r.state.posts == s.posts
      && r.state.view == "profile"
    ensures r.outcome == Applied ==>
      var u := r.state.users[|s.users|];
      && u.id == id && u.name == Trim(name) && u.email == Trim(email) && u.password == password
      && u.avatar == "" && u.bio == ""
      && (u.role == Admin <==> s.users == [])
  {
    var e := Trim(email);
    AnyMeans(s.users, (u: User) => u.email == e);
    if EmailTaken(s.users, e) then Step(s, Alerted)
    else
      var user := User(id, Trim(name), e, password, "", "", if |s.users| == 0 then Admin else Member);
      var s' := s.(users := s.users + [user], sessionUserId := Some(id));
      assert s'.users[|s.users|].id == id;
      Step(SetView(s', "profile"), Applied)
  }

  // ------------------------------------------------------------------- login

  /** The login test of app.js:287: trimmed email and verbatim password both match. */
  predicate Matches(u: User, email: string, password: string)
  {
    u.email == Trim(email) && u.password == password
  }

  /** `users[i]` is the first user `find` returns for these credentials. */
  predicate FirstMatch(users: seq<User>, i: int, email: string, password: string)
  {
    && 0 <= i < |users|
    && Matches(users[i], email, password)
    && forall j :: 0 <= j < i ==> !Matches(users[j], email, password)
  }

  /**
   * The login form (app.js:283-294): without a matching user, an alert and
   * no change; otherwise the session becomes the id of the first match.
   */
  function Login(s: State, email: string, password: string): (r: Step)
    ensures r.outcome == Applied || r.outcome == Alerted
    ensures r.outcome == Alerted <==> forall j :: 0 <= j < |s.users| ==> !Matches(s.users[j], email, password)
    ensures r.outcome == Alerted ==> r.state == s
    ensures r.outcome == Applied ==>
      exists i :: FirstMatch(s.users, i, email, password) && r.state.sessionUserId == Some(s.users[i].id)
    ensures r.outcome == Applied ==>
      r.state.users == s.users && r.state.posts == s.posts && r.state.view == Home
  {
    match FindIndex(s.users, (u: User) => Matches(u, email, password))
    case None => Step(s, Alerted)
    case Some(i) =>
      assert FirstMatch(s.users, i, email, password);
      Step(SetView(s.(sessionUserId := Some(s.users[i].id)), Home), Applied)
  }

  // ------------------------------------------------------------------ logout

  /** The logout button (app.js:85-89): no session, back to "home". */
  function Logout(s: State): (r: Step)
    ensures r.outcome == Applied
    ensures r.state.sessionUserId == None && CurrentUser(r.state) == None
    ensures r.state.users == s.users && r.state.posts == s.posts && r.state.view == Home
  {
    Step(SetView(s.(sessionUserId := None), Home), Applied)
  }

  // ---------------------------------------------------------- update profile

  /**
   * The profile form (app.js:298-309): without a session user nothing
   * happens; otherwise that user's name, avatar and bio are replaced by the
   * trimmed inputs, and nothing else about any user changes.
   */
  function UpdateProfile(s: State, name: string, avatar: string, bio: string): (r: Step)
    ensures r.outcome == Applied || r.outcome == Ignored
    ensures r.outcome == Ignored <==> CurrentUser(s).None?
    ensures r.outcome == Ignored ==> r.state == s
    ensures r.outcome == Applied ==>
      && CurrentUser(r.state) == Some(CurrentUser(s).value.(name := Trim(name), avatar := Trim(avatar), bio := Trim(bio)))
      && |r.state.users| == |s.users|
      && r.state.posts == s.posts && r.state.sessionUserId == s.sessionUserId
    ensures r.outcome == Applied ==>
      var i := SessionUserIndex(s.users, s.sessionUserId).value;
      && r.state.users[i] == s.users[i].(name := Trim(name), avatar := Trim(avatar), bio := Trim(bio))
      && forall j :: 0 <= j < |s.users| && j != i ==> r.state.users[j] == s.users[j]
    ensures r.outcome == Applied ==>
      ViewAllowed(s.view, CurrentUser(s)) ==> r.state.view == s.view
  {
    match SessionUserIndex(s.users, s.sessionUserId)
    case None => Step(s, Ignored)
    case Some(i) =>
      var user := s.users[i].(name := Trim(name), avatar := Trim(avatar), bio := Trim(bio));
      var s' := s.(users := s.users[i := user]);
      SessionUserIndexIs(s'.users, s.sessionUserId.value, i);
      Step(Render(s'), Applied)
  }

  // ------------------------------------------------------- create / edit post

  /** The post an edit overwrites: the first with this id that the user owns. */
  function EditTarget(posts: seq<Post>, postId: string, userId: string): (r: Option<nat>)
    ensures r.Some? ==> r.value < |posts| && posts[r.value].id == postId && posts[r.value].userId == userId
    ensures r.Some? ==> forall j :: 0 <= j < r.value ==> !(posts[j].id == postId && posts[j].userId == userId)
    ensures r.None? <==> forall j :: 0 <= j < |posts| ==> !(posts[j].id == postId && posts[j].userId == userId)
  {
    FindIndex(posts, (p: Post) => p.id == postId && p.userId == userId)
  }

  /**
   * The post form (app.js:313-344). Without a session user nothing happens.
   * With a non-empty `postId`, the user's post with that id gets the trimmed
   * title, image and content, the status and `now`, and keeps its id, owner,
   * likes and comments; when the user owns no such post the source throws.
   * With an empty `postId`, one new post by the user is appended.
   */
  function SavePost(s: State, postId: string, title: string, image: string, content: string,
                    status: Status, now: string, freshId: string): (r: Step)
    ensures r.outcome == Applied || r.outcome == Ignored || r.outcome == Threw
    ensures r.outcome == Ignored <==> CurrentUser(s).None?
    ensures r.outcome == Threw <==>
      CurrentUser(s).Some? && postId != "" && EditTarget(s.posts, postId, CurrentUser(s).value.id).None?
    ensures r.outcome != Applied ==> r.state == s
    ensures r.outcome == Applied ==>
      r.state.users == s.users && r.state.sessionUserId == s.sessionUserId && r.state.view == "my-posts"
    ensures r.outcome == Applied && postId != "" ==>
      var i := EditTarget(s.posts, postId, CurrentUser(s).value.id).value;
      && |r.state.posts| == |s.posts|
      && (forall j :: 0 <= j < |s.posts| && j != i ==> r.state.posts[j] == s.posts[j])
      && var p, q := s.posts[i], r.state.posts[i];
      && q.id == p.id && q.userId == p.userId && q.likes == p.likes && q.comments == p.comments
      && q.title == Trim(title) && q.image == Trim(image) && q.content == Trim(content)
      && q.status == status && q.updatedAt == now
    ensures r.outcome == Applied && postId == "" ==>
      && |r.state.posts| == |s.posts| + 1
      && r.state.posts[..|s.posts|] == s.posts
      && var q := r.state.posts[|s.posts|];
      && q.id == freshId && q.userId == CurrentUser(s).value.id && q.likes == [] && q.comments == []
      && q.title == Trim(title) && q.image == Trim(image) && q.content == Trim(content)
      && q.status == status && q.updatedAt == now
  {
    match CurrentUser(s)
    case None => Step(s, Ignored)
    case Some(user) =>
      if postId != "" then
        match EditTarget(s.posts, postId, user.id)
        case None => Step(s, Threw)
        case Some(i) =>
          var post := s.posts[i].(title := Trim(title), image := Trim(image), content := Trim(content),
                                  status := status, updatedAt := now);
          Step(SetView(s.(posts := s.posts[i := post]), "my-posts"), Applied)
      else
        var post := Post(freshId, user.id, Trim(title), Trim(image), Trim(content), status, [], [], now);
        Step(SetView(s.(posts := s.posts + [post]), "my-posts"), Applied)
  }

  // ------------------------------------------------------------- delete post

  function IdIsNot(postId: string): Post -> bool
  {
    (p: Post) => p.id != postId
  }

  /**
   * The delete button (app.js:231-235): every post with this id goes, the
   * others stay in their order; users and session are untouched. The source
   * checks neither the session nor ownership here.
   */
  function DeletePost(s: State, postId: string): (r: Step)
    ensures r.outcome == Applied
    ensures forall i :: 0 <= i < |r.state.posts| ==> r.state.posts[i].id != postId
    ensures r.state.users == s.users && r.state.sessionUserId == s.sessionUserId
    ensures ViewAllowed(s.view, CurrentUser(s)) ==> r.state.view == s.view
  {
    Step(Render(s.(posts := Filter(s.posts, IdIsNot(postId)))), Applied)
  }

  /** Delete keeps every other post and their relative order. */
  lemma DeleteKeepsOthers(s: State, postId: string, q: Post)
    ensures SubsequenceOf(DeletePost(s, postId).state.posts, s.posts)
    ensures q in s.posts && q.id != postId ==> q in DeletePost(s, postId).state.posts
  {
    FilterSubsequence(s.posts, IdIsNot(postId));
    FilterMembers(s.posts, IdIsNot(postId), q);
  }

  // -------------------------------------------------------------------- like

  /** The post a like or comment targets: the first with this id. */
  function PostIndex(posts: seq<Post>, postId: string): (r: Option<nat>)
    ensures r.Some? ==> r.value < |posts| && posts[r.value].id == postId
    ensures r.Some? ==> forall j :: 0 <= j < r.value ==> posts[j].id != postId
    ensures r.None? <==> forall j :: 0 <= j < |posts| ==> posts[j].id != postId
  {
    FindIndex(posts, (p: Post) => p.id == postId)
  }

  /**
   * The like button (app.js:160-169): without a session user an alert;
   * otherwise the user's id is added to the post's likes unless already
   * there, and the post's `updatedAt` becomes `now`.
   */
  function Like(s: State, postId: string, now: string): (r: Step)
    ensures r.outcome == Applied || r.outcome == Alerted || r.outcome == Threw
    ensures r.outcome == Alerted <==> CurrentUser(s).None?
    ensures r.outcome == Threw <==> CurrentUser(s).Some? && PostIndex(s.posts, postId).None?
    ensures r.outcome != Applied ==> r.state == s
    ensures r.outcome == Applied ==>
      r.state.users == s.users && r.state.sessionUserId == s.sessionUserId && r.state.view == s.view
    ensures r.outcome == Applied ==>
      var i, uid := PostIndex(s.posts, postId).value, CurrentUser(s).value.id;
      && |r.state.posts| == |s.posts|
      && (forall j :: 0 <= j < |s.posts| && j != i ==> r.state.posts[j] == s.posts[j])
      && var p, q := s.posts[i], r.state.posts[i];
      && q == p.(likes := q.likes, updatedAt := now)
      && |q.likes| == |p.likes| + (if uid in p.likes then 0 else 1)
      && uid in q.likes && q.likes[..|p.likes|] == p.likes
  {
    match CurrentUser(s)
    case None => Step(s, Alerted)
    case Some(user) =>
      match PostIndex(s.posts, postId)
      case None => Step(s, Threw)
      case Some(i) =>
        var p := s.posts[i];
        var likes := if user.id in p.likes then p.likes else p.likes + [user.id];
        Step(s.(posts := s.posts[i := p.(likes := likes, updatedAt := now)]), Applied)
  }

  /** Liking twice leaves the same state as liking once (with the later time). */
  lemma LikeIdempotent(s: State, postId: string, now1: string, now2: string)
    ensures Like(Like(s, postId, now1).state, postId, now2).state == Like(s, postId, now2).state
  {
    var r1 := Like(s, postId, now1);
    if r1.outcome == Applied {
      var i := PostIndex(s.posts, postId).value;
      assert PostIndex(r1.state.posts, postId) == Some(i);
      assert CurrentUser(r1.state) == CurrentUser(s);
      var uid := CurrentUser(s).value.id;
      var r2 := Like(r1.state, postId, now2);
      var r3 := Like(s, postId, now2);
      assert r2.state.posts[i] == r3.state.posts[i];
      assert r2.state.posts == r3.state.posts;
    }
  }

  /** A like never duplicates: after it the user's id occurs exactly once. */
  lemma LikeNoDuplicate(s: State, postId: string, now: string)
    requires forall i :: 0 <= i < |s.posts| ==> NoDup(s.posts[i].likes)
    ensures var r := Like(s, postId, now);
      forall i :: 0 <= i < |r.state.posts| ==> NoDup(r.state.posts[i].likes)
    ensures var r := Like(s, postId, now);
      r.outcome == Applied ==>
        var i := PostIndex(s.posts, postId).value;
        multiset(r.state.posts[i].likes)[CurrentUser(s).value.id] == 1
  {
    var r := Like(s, postId, now);
    if r.outcome == Applied {
      var i := PostIndex(s.posts, postId).value;
      var uid := CurrentUser(s).value.id;
      var l := r.state.posts[i].likes;
      assert NoDup(l) by {
        var old_ := s.posts[i].likes;
        if uid !in old_ {
          assert l == old_ + [uid];
          forall a, b | 0 <= a < b < |l| ensures l[a] != l[b] {
            if b == |old_| { assert l[a] == old_[a]; }
          }
        }
      }
      NoDupOccursOnce(l, uid);
    }
  }

  // ----------------------------------------------------------------- comment

  /**
   * The comment form (app.js:173-185): without a session user nothing
   * happens; otherwise one comment, signed with the user's current name, is
   * appended to the post's comments (stamped `createdAt`), and the post's
   * `updatedAt` field takes the second clock reading. The source reads the
   * clock twice, hence two times.
   */
  function AddComment(s: State, postId: string, text: string, createdAt: string, updatedAt: string): (r: Step)
    ensures r.outcome == Applied || r.outcome == Ignored || r.outcome == Threw
    ensures r.outcome == Ignored <==> CurrentUser(s).None?
    ensures r.outcome == Threw <==> CurrentUser(s).Some? && PostIndex(s.posts, postId).None?
    ensures r.outcome != Applied ==> r.state == s
    ensures r.outcome == Applied ==>
      r.state.users == s.users && r.state.sessionUserId == s.sessionUserId && r.state.view == s.view
    ensures r.outcome == Applied ==>
      var i := PostIndex(s.posts, postId).value;
      && |r.state.posts| == |s.posts|
      && (forall j :: 0 <= j < |s.posts| && j != i ==> r.state.posts[j] == s.posts[j])
      && var p, q := s.posts[i], r.state.posts[i];
      && q == p.(comments := q.comments, updatedAt := updatedAt)
      && |q.comments| == |p.comments| + 1
      && q.comments[..|p.comments|] == p.comments
      && q.comments[|p.comments|] == Comment(CurrentUser(s).value.name, Trim(text), createdAt)
  {
    match CurrentUser(s)
    case None => Step(s, Ignored)
    case Some(user) =>
      match PostIndex(s.posts, postId)
      case None => Step(s, Threw)
      case Some(i) =>
        var p := s.posts[i];
        var c := Comment(user.name, Trim(text), createdAt);
        Step(s.(posts := s.posts[i := p.(comments := p.comments + [c], updatedAt := updatedAt)]), Applied)
  }

  /**
   * Comments keep the order they were written in, each signed with the name
   * of whoever was signed in at the time: a second comment on the same post,
   * after anything that left the posts alone (a login as another user, say),
   * lands after the first.
   */
  lemma CommentsKeepOrder(s: State, s': State, postId: string, text1: string, text2: string,
                          t1: string, t2: string)
    requires CurrentUser(s).Some? && PostIndex(s.posts, postId).Some? && CurrentUser(s').Some?
    requires s'.posts == AddComment(s, postId, text1, t1, t1).state.posts
    ensures var i := PostIndex(s.posts, postId).value;
      AddComment(s', postId, text2, t2, t2).state.posts[i].comments ==
        s.posts[i].comments
        + [Comment(CurrentUser(s).value.name, Trim(text1), t1)]
        + [Comment(CurrentUser(s').value.name, Trim(text2), t2)]
  {
    var i := PostIndex(s.posts, postId).value;
    assert PostIndex(s'.posts, postId) == Some(i);
  }
}
