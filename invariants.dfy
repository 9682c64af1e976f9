/**
 * What every state reached from the empty start keeps: unique user ids and
 * emails, the first user and only the first as admin, unique post ids,
 * authors and likers who exist, likes without duplicates, a session that
 * names a user, and a view the session may see. Each handler preserves it,
 * provided the `uid()` results it is given are not already in use.
 */
module Invariants {
  import opened Wrappers
  import opened Seqs
  import opened Text
  import opened Domain
  import opened Identity
  import opened Views
  import opened Handlers

  predicate HasUser(users: seq<User>, id: string)
  {
    exists j :: 0 <= j < |users| && users[j].id == id
  }

  predicate HasPost(posts: seq<Post>, id: string)
  {
    exists j :: 0 <= j < |posts| && posts[j].id == id
  }

  predicate UniqueUserIds(users: seq<User>)
  {
    forall i, j :: 0 <= i < j < |users| ==> users[i].id != users[j].id
  }

  predicate UniqueEmails(users: seq<User>)
  {
    forall i, j :: 0 <= i < j < |users| ==> users[i].email != users[j].email
  }

  /** The first registered user is the admin, and nobody else is. */
  predicate FirstIsAdmin(users: seq<User>)
  {
    forall i :: 0 <= i < |users| ==> (users[i].role == Admin <==> i == 0)
  }

  predicate UniquePostIds(posts: seq<Post>)
  {
    forall i, j :: 0 <= i < j < |posts| ==> posts[i].id != posts[j].id
  }

  /** A post's author and likers exist, and nobody likes it twice. */
  predicate PostConsistent(users: seq<User>, p: Post)
  {
    && HasUser(users, p.userId)
    && NoDup(p.likes)
    && forall k :: 0 <= k < |p.likes| ==> HasUser(users, p.likes[k])
  }

  /** Ids and emails identify users; the first user and only the first is the admin. */
  predicate AccountsConsistent(users: seq<User>)
  {
    UniqueUserIds(users) && UniqueEmails(users) && FirstIsAdmin(users)
  }

  /** Post ids identify posts, and every post is consistent with the users. */
  predicate PostsConsistent(users: seq<User>, posts: seq<Post>)
  {
    && UniquePostIds(posts)
    && forall i :: 0 <= i < |posts| ==> PostConsistent(users, posts[i])
  }

  predicate Consistent(s: State)
  {
    && AccountsConsistent(s.users)
    && PostsConsistent(s.users, s.posts)
    && (s.sessionUserId.Some? ==> HasUser(s.users, s.sessionUserId.value))
    && ViewAllowed(s.view, CurrentUser(s))
  }

  /** The state of a first visit: nothing stored, the "home" view. */
  lemma EmptyIsConsistent()
    ensures Consistent(State([], [], None, Home))
  {
  }

  /** With at least one user there is exactly one admin, the first. */
  lemma ExactlyOneAdmin(s: State)
    requires Consistent(s) && |s.users| > 0
    ensures s.users[0].role == Admin
    ensures forall i :: 0 < i < |s.users| ==> s.users[i].role == Member
  {
  }

  /** A new user with an unused id and email, admin exactly when first, keeps the accounts consistent. */
  lemma AddUserKeepsAccounts(users: seq<User>, u: User)
    requires AccountsConsistent(users) && !HasUser(users, u.id)
    requires forall j :: 0 <= j < |users| ==> users[j].email != u.email
    requires u.role == Admin <==> users == []
    ensures AccountsConsistent(users + [u])
  {
    var us := users + [u];
    forall i, j | 0 <= i < j < |us| ensures us[i].id != us[j].id && us[i].email != us[j].email {
      if j == |users| {
        assert us[i] == users[i];
      }
    }
    forall i | 0 <= i < |us| ensures us[i].role == Admin <==> i == 0 {
      if i < |users| {
        assert us[i] == users[i];
      }
    }
  }

  /** Adding a user keeps every post consistent. */
  lemma MoreUsersKeepPosts(users: seq<User>, u: User, posts: seq<Post>)
    requires PostsConsistent(users, posts)
    ensures PostsConsistent(users + [u], posts)
  {
    forall id | HasUser(users, id) ensures HasUser(users + [u], id) {
      var j :| 0 <= j < |users| && users[j].id == id;
      assert (users + [u])[j] == users[j];
    }
  }

  /** Users whose ids, emails and roles stay put keep the accounts and posts consistent. */
  lemma SameKeysKeepConsistent(users: seq<User>, users': seq<User>, posts: seq<Post>)
    requires AccountsConsistent(users) && PostsConsistent(users, posts)
    requires |users'| == |users|
    requires forall j :: 0 <= j < |users| ==>
      users'[j].id == users[j].id && users'[j].email == users[j].email && users'[j].role == users[j].role
    ensures AccountsConsistent(users') && PostsConsistent(users', posts)
    ensures forall id :: HasUser(users, id) ==> HasUser(users', id)
  {
    forall id | HasUser(users, id) ensures HasUser(users', id) {
      var j :| 0 <= j < |users| && users[j].id == id;
      assert users'[j].id == id;
    }
  }

  /** A new consistent post under an unused id keeps the posts consistent. */
  lemma AppendPostKeepsPosts(users: seq<User>, posts: seq<Post>, q: Post)
    requires PostsConsistent(users, posts) && !HasPost(posts, q.id) && PostConsistent(users, q)
    ensures PostsConsistent(users, posts + [q])
  {
    var ps := posts + [q];
    forall i, j | 0 <= i < j < |ps| ensures ps[i].id != ps[j].id {
      if j == |posts| {
        assert ps[i] == posts[i];
      }
    }
    forall i | 0 <= i < |ps| ensures PostConsistent(users, ps[i]) {
      if i < |posts| {
        assert ps[i] == posts[i];
      }
    }
  }

  /** Replacing a post by a consistent one with the same id keeps the posts consistent. */
  lemma ReplacePostKeepsPosts(users: seq<User>, posts: seq<Post>, i: nat, q: Post)
    requires PostsConsistent(users, posts) && i < |posts|
    requires q.id == posts[i].id && PostConsistent(users, q)
    ensures PostsConsistent(users, posts[i := q])
  {
  }

  lemma RegisterKeepsConsistent(s: State, id: string, name: string, email: string, password: string)
    requires Consistent(s) && !HasUser(s.users, id)
    ensures Consistent(Register(s, id, name, email, password).state)
  {
    var r := Register(s, id, name, email, password);
    if r.outcome == Applied {
      var u := r.state.users[|s.users|];
      assert r.state.users == s.users + [u];
      AddUserKeepsAccounts(s.users, u);
      MoreUsersKeepPosts(s.users, u, s.posts);
      assert HasUser(r.state.users, id) by {
        assert r.state.users[|s.users|].id == id;
      }
    }
  }

  lemma LoginKeepsConsistent(s: State, email: string, password: string)
    requires Consistent(s)
    ensures Consistent(Login(s, email, password).state)
  {
  }

  lemma LogoutKeepsConsistent(s: State)
    requires Consistent(s)
    ensures Consistent(Logout(s).state)
  {
  }

  lemma UpdateProfileKeepsConsistent(s: State, name: string, avatar: string, bio: string)
    requires Consistent(s)
    ensures Consistent(UpdateProfile(s, name, avatar, bio).state)
  {
    var r := UpdateProfile(s, name, avatar, bio);
    if r.outcome == Applied {
      var i := SessionUserIndex(s.users, s.sessionUserId).value;
      forall j | 0 <= j < |s.users|
        ensures r.state.users[j].id == s.users[j].id && r.state.users[j].email == s.users[j].email
        ensures r.state.users[j].role == s.users[j].role
      {
        if j == i {
          assert r.state.users[j] == CurrentUser(r.state).value;
        }
      }
      SameKeysKeepConsistent(s.users, r.state.users, s.posts);
    }
  }

  lemma SavePostKeepsConsistent(s: State, postId: string, title: string, image: string, content: string,
                                status: Status, now: string, freshId: string)
    requires Consistent(s) && !HasPost(s.posts, freshId)
    ensures Consistent(SavePost(s, postId, title, image, content, status, now, freshId).state)
  {
    var r := SavePost(s, postId, title, image, content, status, now, freshId);
    if r.outcome == Applied {
      if postId == "" {
        var q := r.state.posts[|s.posts|];
        assert r.state.posts == s.posts + [q];
        AppendPostKeepsPosts(s.users, s.posts, q);
      } else {
        var i := EditTarget(s.posts, postId, CurrentUser(s).value.id).value;
        var q := r.state.posts[i];
        assert r.state.posts == s.posts[i := q];
        assert PostConsistent(s.users, s.posts[i]);
        ReplacePostKeepsPosts(s.users, s.posts, i, q);
      }
    }
  }

  lemma DeletePostKeepsConsistent(s: State, postId: string)
    requires Consistent(s)
    ensures Consistent(DeletePost(s, postId).state)
  {
    var r := DeletePost(s, postId);
    assert r.state.posts == Filter(s.posts, IdIsNot(postId));
    FilterKeepsPairwise(s.posts, IdIsNot(postId), (p: Post, q: Post) => p.id != q.id);
    forall i | 0 <= i < |r.state.posts| ensures PostConsistent(s.users, r.state.posts[i]) {
      FilterMembers(s.posts, IdIsNot(postId), r.state.posts[i]);
    }
  }

  lemma LikeKeepsConsistent(s: State, postId: string, now: string)
    requires Consistent(s)
    ensures Consistent(Like(s, postId, now).state)
  {
    var r := Like(s, postId, now);
    LikeNoDuplicate(s, postId, now);
    if r.outcome == Applied {
      var i := PostIndex(s.posts, postId).value;
      var q := r.state.posts[i];
      assert PostConsistent(s.users, s.posts[i]);
      forall k | 0 <= k < |q.likes| ensures HasUser(s.users, q.likes[k]) {
        if k >= |s.posts[i].likes| {
          assert q.likes[k] == CurrentUser(s).value.id;
        } else {
          assert q.likes[k] == s.posts[i].likes[k];
        }
      }
      assert r.state.posts == s.posts[i := q];
      ReplacePostKeepsPosts(s.users, s.posts, i, q);
    }
  }

  lemma AddCommentKeepsConsistent(s: State, postId: string, text: string, createdAt: string, updatedAt: string)
    requires Consistent(s)
    ensures Consistent(AddComment(s, postId, text, createdAt, updatedAt).state)
  {
    var r := AddComment(s, postId, text, createdAt, updatedAt);
    if r.outcome == Applied {
      var i := PostIndex(s.posts, postId).value;
      var q := r.state.posts[i];
      assert PostConsistent(s.users, s.posts[i]);
      assert r.state.posts == s.posts[i := q];
      ReplacePostKeepsPosts(s.users, s.posts, i, q);
    }
  }

  lemma SetViewKeepsConsistent(s: State, view: string)
    requires Consistent(s)
    ensures Consistent(SetView(s, view))
  {
  }
}
