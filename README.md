# Blog app state model

This project models the application logic of a small single-page blog, `app.js`, in Dafny. The app keeps
one in-memory `state` record (users, posts, the session's user id and the selected view). Its event
handlers are register, login, logout, profile update, create/edit post, delete, like and comment. Each
handler updates the record, writes it to local storage (`persist`) and re-renders. A static tab table
decides which views a visitor may see, and `renderViews` sends a visitor who is on a forbidden view back
to "home". The rendering code shows three lists: the public feed, the session user's own posts, and the
admin directory.

The model has two layers:

- **`Handlers`** (`handlers.dfy`). Each handler is a function from the state before the event to the state
  after it, together with how the handler ended (`Outcome`):
  - `Applied`: it changed the state;
  - `Alerted`: it showed an alert and stopped;
  - `Ignored`: it returned silently;
  - `Threw`: it threw a TypeError because a lookup returned `undefined`.

  Only `Applied` changes anything. In the other three cases the source stops before its first write.
- **`App.Blog`** (`app.dfy`). This class holds the record's fields and a `stored` snapshot of local
  storage. Each method performs the handler's writes in the source's order. It is proved to end in exactly
  the state and outcome of its `Handlers` counterpart. It is also proved to leave `stored` equal to the
  persisted fields exactly when the handler ran to `persist()`.

The pure parts are separate modules:

- `Identity`: `sessionUser`, `isAdmin`.
- `Views`: `tabsConfig`, `visibleForTab`, the view reset.
- `Feeds`: the feed, my-posts and admin selections.
- `Text`: `String.prototype.trim`.
- `Seqs`: `find`, `some`, `filter`, `reverse`.

`Invariants` defines what every reachable state keeps and proves that each handler preserves it. The
invariant is:

- unique user ids and emails;
- the first user, and only the first, is the admin;
- unique post ids;
- authors and likers exist, and likes have no duplicates;
- the session names a user;
- the view is one the session user may see.

`Scenario` walks one complete run through the handlers.

Modelling choices:

- `uid()` and `now()` results are parameters. The preservation lemmas require each fresh id to be unused;
  the source's random `uid` does not guarantee this.
- A failed lookup dereferences `undefined` in edit (app.js:329-330), like (app.js:163-164) and comment
  (app.js:177-178). It is modelled as the outcome `Threw` with nothing changed, not as a precondition.
- `trim` is modelled concretely: it strips the ECMAScript WhiteSpace and LineTerminator characters at both
  ends.
- Roles and statuses are datatypes (`Admin`/`Member`, `Draft`/`Published`).
- Two fields are renamed because their names are Dafny keywords: a comment's `by` becomes `author`, and a
  tab's `label` becomes `caption`.
- `ViewAllowed` lists, for each kind of visitor, the views they may stay on. `ViewAllowedByTable` proves
  that this list agrees with the source's test over the tab table (app.js:114).

Behaviour worth noting:

- An admin does not see the "auth" (Login/Register) tab (app.js:20, 62). Its rule is "guest", so an admin
  sees every tab except that one.
- Delete (app.js:231-235) checks neither the session nor ownership. It removes every post with the given
  id.

## Model

| member | source | states |
|---|---|---|
| Seqs.FindIndex | app.js:36 | `find`: the result, if any, is the first index whose element satisfies the test; none means no element does |
| Seqs.AnyMeans | app.js:262 | `some` holds exactly when some element satisfies the test |
| Seqs.Filter | app.js:123 | `filter` keeps only elements that pass, and never grows the list |
| Seqs.FilterMembers | app.js:232 | an element is in the filtered list exactly when it is in the list and passes |
| Seqs.FilterSubsequence | app.js:232 | `filter` keeps the survivors in their original relative order |
| Seqs.FilterKeepsPairwise | app.js:232 | a pairwise property of the list (such as distinct ids) survives filtering |
| Seqs.Reverse | app.js:123 | `reverse` puts element `i` at position `n-1-i` |
| Seqs.ReverseAppend | app.js:251 | reversing a concatenation reverses the parts and swaps them |
| Seqs.NoDupOccursOnce | app.js:164 | in a list without duplicates every member occurs exactly once |
| Text.Trim | app.js:262 | `trim` returns the slice left after removing the whitespace and line terminators at both ends, and the result neither starts nor ends with one |
| Text.TrimKeepsTrimmed | app.js:268 | a string with no trimmable character at either end is its own trim |
| Text.TrimIdempotent | app.js:268 | trimming twice is trimming once |
| Identity.SessionUserIndex | app.js:35-37 | the index is that of the first user with the session's id; none without a session or without such a user |
| Identity.SessionUserIndexIs | app.js:36 | the first user carrying the id is the one found |
| Identity.SessionUser | app.js:35-37 | a user is found exactly when the session names an existing id, and it carries that id |
| Identity.IsAdmin | app.js:39-41 | `isAdmin`: a user is present and has the admin role (a definition; no contract of its own) |
| Views.TabsConfig | app.js:18-25 | the six tabs in table order, each with its id, caption and rule (a constant; its distinct ids are `Views.TabIdsDistinct`) |
| Views.VisibleForTab | app.js:60-66 | a guest sees exactly the "all" and "guest" tabs, a non-admin user the "all" and "user" tabs, an admin every tab except the "guest" ones |
| Views.VisibleTabs | app.js:73 | the tab bar holds only tabs visible to the visitor, and never more than the table; the per-role lemmas below give it exactly |
| Views.GuestTabs | app.js:73 | a guest's tab bar is Home, Login/Register |
| Views.MemberTabs | app.js:73 | a non-admin user's tab bar is Home, Profile, Create Post, My Posts |
| Views.AdminTabs | app.js:73 | an admin's tab bar is Home, Profile, Create Post, My Posts, Admin |
| Views.TabIdsDistinct | app.js:18-25 | no two tabs share an id |
| Views.InVisibleTab | app.js:114 | the source's test: some tab has this id and is visible (a definition; `Views.ViewAllowedByTable` relates it to the per-visitor lists) |
| Views.AllowedViewHasTab | app.js:114 | every view on a visitor's list has a tab in the table that the visitor can see |
| Views.TabViewIsAllowed | app.js:114 | every view whose tab the visitor can see is on the visitor's list |
| Views.ViewAllowedByTable | app.js:114 | the per-visitor view lists agree with the table test for every view and visitor |
| Views.ResolveView | app.js:114-117 | the reset ends on an allowed view; an allowed view is kept; any other becomes "home" |
| Views.ResolveViewIdempotent | app.js:114-117 | a second reset changes nothing, so the recursion in `renderViews` stops after one step |
| Views.Render | app.js:104-118 | rendering changes only the view, ends on an allowed view, and changes nothing when the view was already allowed |
| Views.SectionShown | app.js:106-111 | a section is shown when its tab, if any, is visible and it is the current view (a definition; its property is `Views.ResolvedViewShowsOneSection`) |
| Views.ResolvedViewShowsOneSection | app.js:106-112 | after the reset, exactly one section is shown: the current view's |
| Feeds.PublicFeed | app.js:123 | the feed holds only published posts and never more posts than the state |
| Feeds.PublicFeedMembers | app.js:123 | a post is in the feed exactly when it is in the state and published |
| Feeds.PublicFeedNewestFirst | app.js:123 | a post added last appears at the head of the feed if published, and the rest of the feed is unchanged |
| Feeds.MyPosts | app.js:188-196 | without a session user the list is empty; otherwise every entry belongs to the session user |
| Feeds.MyPostsMembers | app.js:196 | with a session user, a post is listed exactly when it is theirs |
| Feeds.MyPostsNewestFirst | app.js:196 | with a session user, a post added last heads their list if it is theirs, and leaves the list unchanged otherwise |
| Feeds.RenderAdmin | app.js:239-256 | the panel is drawn exactly for an admin; it lists every user in order and every post newest first, with like and comment counts |
| Handlers.SetView | app.js:49-52 | only the view changes; it becomes the requested view if allowed, else "home" |
| Handlers.EmailTaken | app.js:262 | the `some` test holds exactly when some user already has this email |
| Handlers.Register | app.js:259-281 | an email already on file after trimming gives an alert and no change; otherwise exactly one user is appended with the trimmed name and email, the given password and empty avatar and bio. The new user is an admin exactly when there were no users. The session becomes theirs and the view "profile" |
| Handlers.Matches | app.js:287 | the login test: the user's email equals the trimmed input and the password matches verbatim (a definition; used by `Handlers.Login`) |
| Handlers.Login | app.js:283-294 | with no user matching the trimmed email and exact password, an alert and no change; otherwise the session becomes the id of the first match and the view "home" |
| Handlers.Logout | app.js:85-89 | the session is cleared, users and posts are kept, the view is "home" |
| Handlers.UpdateProfile | app.js:298-309 | without a session user nothing happens; otherwise the first user with the session's id, at the index `sessionUser` finds, gets the trimmed name, avatar and bio, and no other user or post changes |
| Handlers.EditTarget | app.js:329 | the first post with the id that belongs to the user; none means the user owns no post with that id |
| Handlers.SavePost | app.js:313-344 | without a session user nothing happens. An edit of a post the user does not own throws. An edit changes only the target's title, image, content, status and time, and keeps its id, owner, likes and comments. A create appends one post by the user with empty likes and comments. The view becomes "my-posts" |
| Handlers.DeletePost | app.js:231-235 | no post with the id remains; users and session are untouched |
| Handlers.DeleteKeepsOthers | app.js:232 | the remaining posts keep their relative order, and every post with another id stays |
| Handlers.PostIndex | app.js:163 | the first post with the id, or none when no post has it |
| Handlers.Like | app.js:160-169 | without a session user an alert and no change. With an unknown post it throws. Otherwise only the target post changes: its likes gain the user's id unless already present, and its time is updated |
| Handlers.LikeIdempotent | app.js:164 | liking twice leaves the same state as liking once |
| Handlers.LikeNoDuplicate | app.js:164 | likes without duplicates stay without duplicates, and the liker's id then occurs exactly once |
| Handlers.AddComment | app.js:173-185 | without a session user nothing happens. With an unknown post it throws. Otherwise exactly one comment is appended at the end of the target's comments, signed with the user's current name and the trimmed text. Earlier comments and other posts are unchanged |
| Handlers.CommentsKeepOrder | app.js:178 | a later comment lands after an earlier one on the same post |
| Invariants.EmptyIsConsistent | app.js:11-16 | the first-visit state satisfies the invariant |
| Invariants.ExactlyOneAdmin | app.js:273 | in a consistent state with users, the first is the admin and every other user is a member |
| Invariants.AddUserKeepsAccounts | app.js:262-276 | appending a user with an unused id and email, admin exactly when first, keeps ids and emails unique and the first user the only admin |
| Invariants.MoreUsersKeepPosts | app.js:276 | adding a user keeps every post consistent |
| Invariants.SameKeysKeepConsistent | app.js:303-305 | changing only users' names, avatars and bios keeps accounts and posts consistent |
| Invariants.AppendPostKeepsPosts | app.js:332-338 | appending a consistent post under an unused id keeps the posts consistent |
| Invariants.ReplacePostKeepsPosts | app.js:330 | replacing a post by a consistent one with the same id keeps the posts consistent |
| Invariants.RegisterKeepsConsistent | app.js:259-281 | register with an unused id preserves the invariant |
| Invariants.LoginKeepsConsistent | app.js:283-294 | login preserves the invariant |
| Invariants.LogoutKeepsConsistent | app.js:85-89 | logout preserves the invariant |
| Invariants.UpdateProfileKeepsConsistent | app.js:298-309 | profile update preserves the invariant |
| Invariants.SavePostKeepsConsistent | app.js:313-344 | saving a post with an unused fresh id preserves the invariant |
| Invariants.DeletePostKeepsConsistent | app.js:231-235 | delete preserves the invariant |
| Invariants.LikeKeepsConsistent | app.js:160-169 | like preserves the invariant, including likes without duplicates |
| Invariants.AddCommentKeepsConsistent | app.js:173-185 | comment preserves the invariant |
| Invariants.SetViewKeepsConsistent | app.js:49-52 | selecting a view preserves the invariant |
| App.Blog.constructor | app.js:11-16 | each collection is its stored value or empty, the session is the stored one, and the view is "home" |
| App.Blog.Persist | app.js:43-47 | the stored snapshot equals the current users, posts and session |
| App.Blog.RenderViews | app.js:114-117 | the view ends as the reset's result, which is allowed |
| App.Blog.SetView | app.js:49-52 | the new state is `Handlers.SetView` of the old one |
| App.Blog.Register | app.js:259-281 | the new state and outcome are those of `Handlers.Register`; storage is written exactly when a user was added |
| App.Blog.Login | app.js:283-294 | the new state and outcome are those of `Handlers.Login`; storage is written exactly on success |
| App.Blog.Logout | app.js:85-89 | the new state is that of `Handlers.Logout`, and it is stored |
| App.Blog.UpdateProfile | app.js:298-309 | the new state and outcome are those of `Handlers.UpdateProfile`; storage is written exactly on success |
| App.Blog.SavePost | app.js:313-344 | the new state and outcome are those of `Handlers.SavePost`; storage is written exactly on success |
| App.Blog.DeletePost | app.js:231-235 | the new state is that of `Handlers.DeletePost`, and it is stored |
| App.Blog.Like | app.js:160-169 | the new state and outcome are those of `Handlers.Like`; storage is written exactly on success |
| App.Blog.AddComment | app.js:173-185 | the new state and outcome are those of `Handlers.AddComment`; storage is written exactly on success |
| Scenario.FirstRegistration | app.js:273 | the first registration on an empty app makes an admin and signs them in |
| Scenario.SecondRegistration | app.js:273 | a second registration with another email makes a member and signs them in |
| Scenario.DraftThenPublish | app.js:328-339 | a draft is created, then edited into a published post that keeps its id and owner |
| Scenario.LoginAs | app.js:286-290 | each of the two users can sign in with their own credentials |
| Scenario.LikeAs | app.js:164-165 | a user's like is appended to the post's likes |
| Scenario.SecondLike | app.js:164 | a second user's like lands after the first user's |
| Scenario.FeedHidesDraft | app.js:123 | a draft is not in the feed; once published, it is |
| Scenario.LikesInOrder | app.js:160-169 | likes from two users, with logins in between, accumulate in order |
| Scenario.AdminDirectory | app.js:239-256 | the admin sees both users and the post with its two likes |
| Scenario.TwoUsersOnePost | app.js:259-344 | the whole run: roles, feed before and after publishing, likes, and the admin directory |

## Left out

- DOM and HTML work is not modelled: `innerHTML` strings, `classList`, event binding, `form.reset`,
  `resetPostForm`, `hydrateProfileForm`, `renderTabs` buttons and `renderSessionInfo`. Only the tab
  selection, the section toggle and the view reset of the render functions are modelled.
- Alerts are not modelled as messages. An alert appears only as the outcome `Alerted`, with no change.
- Local storage and JSON serialisation (`store.get`/`store.set`) are not modelled. `persist` is a copy
  into the `stored` snapshot. Startup takes each key's stored value as an `Option`; how the browser
  decodes it is not modelled.
- `uid()` and `now()` are not modelled: their results are parameters. The model does not capture that two
  `now()` calls in one handler (app.js:178 and 180) may differ or coincide; it takes both values as given.
- Feed display details are not modelled: the author-name lookup in the public feed (app.js:132, 136) and
  the `content.slice(0, 180)` preview (app.js:208).
- The Edit button's form fill (app.js:217-228) is left out. It only copies a post into form fields and
  switches the view. The edit itself is `Handlers.SavePost` with a non-empty id.
- The `return false` of `visibleForTab` for an unknown rule (app.js:65) cannot be reached, because
  `AuthRule` has only the four rules the table uses.
- Text.Trim: Dafny characters are Unicode scalar values, while JavaScript strings are UTF-16 code units.
  The model strips the same set of characters, but it does not model unpaired surrogates.
- The class keeps users and posts as sequences of values, so object aliasing is not modelled. The profile
  update writes three fields of the session user's record and stores it back. This matches the source,
  where the user object is reachable only through `state.users`.
