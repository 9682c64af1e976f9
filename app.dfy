/**
 * The application object: app.js keeps one mutable `state` record and its
 * handlers change it step by step. Each method below is one handler with its
 * DOM binding taken away, and is proved to leave the state its counterpart in
 * module Handlers describes. `persist` copies users, posts and session into
 * `stored`, the model of local storage.
 */
module App {
  import opened Wrappers
  import opened Seqs
  import opened Text
  import opened Domain
  import opened Identity
  import opened Views
  import opened Handlers

  class Blog {
    var users: seq<User>
    var posts: seq<Post>
    var sessionUserId: Option<string>
    var view: string
    /** What `persist` last wrote to local storage (or what was read from it at startup). */
    var stored: Snapshot

    function Current(): State
      reads this
    {
      State(users, posts, sessionUserId, view)
    }

    function Persisted(): Snapshot
      reads this
    {
      Snapshot(users, posts, sessionUserId)
    }

    /**
     * Startup (app.js:11-16): each key's stored value, or an empty list / no
     * session when the key is absent, and the "home" view.
     */
    constructor (storedUsers: Option<seq<User>>, storedPosts: Option<seq<Post>>, storedSession: Option<string>)
      ensures users == (if storedUsers.Some? then storedUsers.value else [])
      ensures posts == (if storedPosts.Some? then storedPosts.value else [])
      ensures sessionUserId == storedSession && view == Home
      ensures stored == Persisted()
    {
      users := if storedUsers.Some? then storedUsers.value else [];
      posts := if storedPosts.Some? then storedPosts.value else [];
      sessionUserId := storedSession;
      view := Home;
      stored := Snapshot(users, posts, sessionUserId);
    }

    /** `persist` (app.js:43-47). */
    method Persist()
      modifies this`stored
      ensures stored == Persisted()
    {
      stored := Snapshot(users, posts, sessionUserId);
    }

    /**
     * The state-changing part of `renderViews` (app.js:114-117): a view the
     * session user may not see becomes "home" and the pass runs again; it
     * stops there because "home" is always allowed.
     */
    method RenderViews()
      modifies this`view
      ensures view == ResolveView(old(view), SessionUser(users, sessionUserId))
      ensures ViewAllowed(view, SessionUser(users, sessionUserId))
      decreases if ViewAllowed(view, SessionUser(users, sessionUserId)) then 0 else 1
    {
      var user := SessionUser(users, sessionUserId);
      if !ViewAllowed(view, user) {
        view := Home;
        RenderViews();
      }
    }

    /** `setView` (app.js:49-52), also what a tab click does. */
    method SetView(v: string)
      modifies this`view
      ensures Current() == Handlers.SetView(old(Current()), v)
    {
      view := v;
      RenderViews();
    }

    /** The register form (app.js:259-281). */
    method Register(id: string, name: string, email: string, password: string) returns (outcome: Outcome)
      modifies this
      ensures Step(Current(), outcome) == Handlers.Register(old(Current()), id, name, email, password)
      ensures if outcome == Applied then stored == Persisted() else stored == old(stored)
    {
      ghost var s := Current();
      var e := Trim(email);
      if EmailTaken(users, e) {
        return Alerted;
      }
      var user := User(id, Trim(name), e, password, "", "", if |users| == 0 then Admin else Member);
      users := users + [user];
      sessionUserId := Some(id);
      Persist();
      ghost var s' := Current();
      assert s' == s.(users := s.users + [user], sessionUserId := Some(id));
      assert Handlers.Register(s, id, name, email, password) == Step(Handlers.SetView(s', "profile"), Applied);
      SetView("profile");
      return Applied;
    }

    /** The login form (app.js:283-294). */
    method Login(email: string, password: string) returns (outcome: Outcome)
      modifies this
      ensures Step(Current(), outcome) == Handlers.Login(old(Current()), email, password)
      ensures if outcome == Applied then stored == Persisted() else stored == old(stored)
    {
      var found := FindIndex(users, (u: User) => Matches(u, email, password));
      if found.None? {
        return Alerted;
      }
      sessionUserId := Some(users[found.value].id);
      Persist();
      SetView(Home);
      return Applied;
    }

    /** The logout button (app.js:85-89). */
    method Logout()
      modifies this
      ensures Step(Current(), Applied) == Handlers.Logout(old(Current()))
      ensures stored == Persisted()
    {
      sessionUserId := None;
      Persist();
      SetView(Home);
    }

    /** The profile form (app.js:298-309): three field writes on the session user's record. */
    method UpdateProfile(name: string, avatar: string, bio: string) returns (outcome: Outcome)
      modifies this
      ensures Step(Current(), outcome) == Handlers.UpdateProfile(old(Current()), name, avatar, bio)
      ensures if outcome == Applied then stored == Persisted() else stored == old(stored)
    {
      ghost var s := Current();
      var found := SessionUserIndex(users, sessionUserId);
      if found.None? {
        return Ignored;
      }
      var i := found.value;
      var user := users[i];
      user := user.(name := Trim(name));
      user := user.(avatar := Trim(avatar));
      user := user.(bio := Trim(bio));
      users := users[i := user];
      assert Handlers.UpdateProfile(s, name, avatar, bio) == Step(Render(Current()), Applied);
      Persist();
      RenderViews();
      return Applied;
    }

    /** The post form (app.js:313-344): `Object.assign` onto the edited post, or a push. */
    method SavePost(postId: string, title: string, image: string, content: string, status: Status,
                    now: string, freshId: string) returns (outcome: Outcome)
      modifies this
      ensures Step(Current(), outcome) ==
        Handlers.SavePost(old(Current()), postId, title, image, content, status, now, freshId)
      ensures if outcome == Applied then stored == Persisted() else stored == old(stored)
    {
      ghost var s := Current();
      var user := SessionUser(users, sessionUserId);
      if user.None? {
        return Ignored;
      }
      var title', image', content' := Trim(title), Trim(image), Trim(content);
      if postId != "" {
        var found := EditTarget(posts, postId, user.value.id);
        if found.None? {
          return Threw;
        }
        var i := found.value;
        posts := posts[i := posts[i].(title := title', image := image', content := content',
                                      status := status, updatedAt := now)];
        assert Handlers.SavePost(s, postId, title, image, content, status, now, freshId)
          == Step(Handlers.SetView(Current(), "my-posts"), Applied);
      } else {
        posts := posts + [Post(freshId, user.value.id, title', image', content', status, [], [], now)];
        assert Handlers.SavePost(s, postId, title, image, content, status, now, freshId)
          == Step(Handlers.SetView(Current(), "my-posts"), Applied);
      }
      Persist();
      SetView("my-posts");
      return Applied;
    }

    /** The delete button (app.js:231-235). */
    method DeletePost(postId: string)
      modifies this
      ensures Step(Current(), Applied) == Handlers.DeletePost(old(Current()), postId)
      ensures stored == Persisted()
    {
      posts := Filter(posts, IdIsNot(postId));
      Persist();
      RenderViews();
    }

    /** The like button (app.js:160-169): push the id unless present, then stamp the post. */
    method Like(postId: string, now: string) returns (outcome: Outcome)
      modifies this
      ensures Step(Current(), outcome) == Handlers.Like(old(Current()), postId, now)
      ensures if outcome == Applied then stored == Persisted() else stored == old(stored)
    {
      var current := SessionUser(users, sessionUserId);
      if current.None? {
        return Alerted;
      }
      var found := PostIndex(posts, postId);
      if found.None? {
        return Threw;
      }
      var i := found.value;
      ghost var p := posts[i];
      if current.value.id !in posts[i].likes {
        posts := posts[i := posts[i].(likes := posts[i].likes + [current.value.id])];
      }
      ghost var likes := posts[i].likes;
      posts := posts[i := posts[i].(updatedAt := now)];
      assert posts == old(posts)[i := p.(likes := likes, updatedAt := now)];
      Persist();
      return Applied;
    }

    /** The comment form (app.js:173-185): push the comment, then stamp the post. */
    method AddComment(postId: string, text: string, createdAt: string, updatedAt: string)
      returns (outcome: Outcome)
      modifies this
      ensures Step(Current(), outcome) == Handlers.AddComment(old(Current()), postId, text, createdAt, updatedAt)
      ensures if outcome == Applied then stored == Persisted() else stored == old(stored)
    {
      var current := SessionUser(users, sessionUserId);
      if current.None? {
        return Ignored;
      }
      var found := PostIndex(posts, postId);
      if found.None? {
        return Threw;
      }
      var i := found.value;
      posts := posts[i := posts[i].(comments := posts[i].comments + [Comment(current.value.name, Trim(text), createdAt)])];
      posts := posts[i := posts[i].(updatedAt := updatedAt)];
      Persist();
      return Applied;
    }
  }
}
