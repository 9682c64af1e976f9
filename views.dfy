/**
 * The static tab table, who may see each tab, and the view reset that
 * `renderViews` performs (app.js:18-25, 60-66, 104-118).
 */
module Views {
  import opened Wrappers
  import opened Seqs
  import opened Domain
  import opened Identity

  /** A tab's `auth` rule: "all", "guest", "user" or "admin". */
  datatype AuthRule = All | Guest | SignedIn | AdminOnly

  /** `caption` is the source's `label`. */
  datatype Tab = Tab(id: string, caption: string, auth: AuthRule)

  /** The view every reset falls back to. */
  const Home: string := "home"

  /** `tabsConfig`, in its order. */
  const TabsConfig: seq<Tab> := [
    Tab("home", "Home", All),
    Tab("auth", "Login/Register", Guest),
    Tab("profile", "Profile", SignedIn),
    Tab("create-post", "Create Post", SignedIn),
    Tab("my-posts", "My Posts", SignedIn),
    Tab("admin", "Admin", AdminOnly)
  ]

  /**
   * `visibleForTab`: a guest sees the "all" and "guest" tabs, a signed-in
   * user the "all" and "user" tabs, an admin everything but the "guest" tabs.
   */
  function VisibleForTab(tab: Tab, user: Option<User>): (r: bool)
    ensures user.None? ==> (r <==> tab.auth == All || tab.auth == Guest)
    ensures user.Some? && !IsAdmin(user) ==> (r <==> tab.auth == All || tab.auth == SignedIn)
    ensures IsAdmin(user) ==> (r <==> tab.auth != Guest)
  {
    match tab.auth
    case All => true
    case Guest => user.None?
    case SignedIn => user.Some?
    case AdminOnly => IsAdmin(user)
  }

  /** `visibleForTab` with its user fixed, as `renderTabs` passes it to `filter`. */
  function VisibleTo(user: Option<User>): Tab -> bool
  {
    (t: Tab) => VisibleForTab(t, user)
  }

  /** The tabs `renderTabs` shows, in table order. */
  function VisibleTabs(user: Option<User>): (r: seq<Tab>)
    ensures |r| <= |TabsConfig|
    ensures forall i :: 0 <= i < |r| ==> VisibleForTab(r[i], user)
  {
    Filter(TabsConfig, VisibleTo(user))
  }

  function TabIds(tabs: seq<Tab>): seq<string>
  {
    seq(|tabs|, i requires 0 <= i < |tabs| => tabs[i].id)
  }

  lemma VisibleTabsUnfold(user: Option<User>)
    ensures var p, ts := VisibleTo(user), TabsConfig;
      VisibleTabs(user) ==
        Keep(ts[0], p) + (Keep(ts[1], p) + (Keep(ts[2], p) + (Keep(ts[3], p) + (Keep(ts[4], p) + Keep(ts[5], p)))))
  {
    FilterSix(TabsConfig, VisibleTo(user));
  }

  /** A guest's tab bar: Home and Login/Register. */
  lemma GuestTabs(user: Option<User>)
    requires user.None?
    ensures TabIds(VisibleTabs(user)) == ["home", "auth"]
  {
    VisibleTabsUnfold(user);
    assert VisibleTabs(user) == [TabsConfig[0], TabsConfig[1]];
  }

  /** A signed-in non-admin's tab bar. */
  lemma MemberTabs(user: Option<User>)
    requires user.Some? && !IsAdmin(user)
    ensures TabIds(VisibleTabs(user)) == ["home", "profile", "create-post", "my-posts"]
  {
    VisibleTabsUnfold(user);
    assert VisibleTabs(user) == [TabsConfig[0], TabsConfig[2], TabsConfig[3], TabsConfig[4]];
  }

  /** An admin's tab bar: everything except Login/Register. */
  lemma AdminTabs(user: Option<User>)
    requires IsAdmin(user)
    ensures TabIds(VisibleTabs(user)) == ["home", "profile", "create-post", "my-posts", "admin"]
  {
    VisibleTabsUnfold(user);
    assert VisibleTabs(user) == [TabsConfig[0], TabsConfig[2], TabsConfig[3], TabsConfig[4], TabsConfig[5]];
  }

  /** No two entries of the table share an id. */
  lemma TabIdsDistinct()
    ensures forall i, j :: 0 <= i < j < |TabsConfig| ==> TabsConfig[i].id != TabsConfig[j].id
  {
  }

  /** The test of app.js:114: some tab has this id and is visible to `user`. */
  predicate InVisibleTab(view: string, user: Option<User>)
  {
    Any(TabsConfig, (t: Tab) => t.id == view && VisibleForTab(t, user))
  }

  /** Which views each kind of visitor may stay on, read off the table. */
  predicate ViewAllowed(view: string, user: Option<User>)
  {
    if user.None? then view == "home" || view == "auth"
    else
      || view == "home" || view == "profile" || view == "create-post" || view == "my-posts"
      || (IsAdmin(user) && view == "admin")
  }

  /** Every view on a visitor's list is in a tab the table shows them. */
  lemma AllowedViewHasTab(view: string, user: Option<User>)
    requires ViewAllowed(view, user)
    ensures InVisibleTab(view, user)
  {
    var i := if view == "home" then 0 else if view == "auth" then 1 else if view == "profile" then 2
      else if view == "create-post" then 3 else if view == "my-posts" then 4 else 5;
    assert TabsConfig[i].id == view && VisibleForTab(TabsConfig[i], user);
    AnyMeans(TabsConfig, (t: Tab) => t.id == view && VisibleForTab(t, user));
  }

  /** A tab the table shows a visitor is on their list. */
  lemma TabViewIsAllowed(view: string, user: Option<User>)
    requires InVisibleTab(view, user)
    ensures ViewAllowed(view, user)
  {
    AnyMeans(TabsConfig, (t: Tab) => t.id == view && VisibleForTab(t, user));
    var i :| 0 <= i < |TabsConfig| && TabsConfig[i].id == view && VisibleForTab(TabsConfig[i], user);
    if i == 0 { assert view == "home"; }
    else if i == 1 { assert view == "auth" && user.None?; }
    else if i == 5 { assert view == "admin" && IsAdmin(user); }
    else { assert user.Some?; }
  }

  /** The table's test and the per-role lists agree on every view and visitor. */
  lemma ViewAllowedByTable(view: string, user: Option<User>)
    ensures ViewAllowed(view, user) <==> InVisibleTab(view, user)
  {
    if ViewAllowed(view, user) {
      AllowedViewHasTab(view, user);
    }
    if InVisibleTab(view, user) {
      TabViewIsAllowed(view, user);
    }
  }

  /** The reset of app.js:114-117: an allowed view stays, any other becomes "home". */
  function ResolveView(view: string, user: Option<User>): (r: string)
    ensures ViewAllowed(r, user)
    ensures ViewAllowed(view, user) ==> r == view
    ensures r == view || r == Home
  {
    if ViewAllowed(view, user) then view else Home
  }

  /** Resolving an already resolved view changes nothing. */
  lemma ResolveViewIdempotent(view: string, user: Option<User>)
    ensures ResolveView(ResolveView(view, user), user) == ResolveView(view, user)
  {
  }

  /** `renderViews` on a whole state: only the view can change. */
  function Render(s: State): (r: State)
    ensures r.users == s.users && r.posts == s.posts && r.sessionUserId == s.sessionUserId
    ensures ViewAllowed(r.view, CurrentUser(r))
    ensures ViewAllowed(s.view, CurrentUser(s)) ==> r == s
  {
    s.(view := ResolveView(s.view, CurrentUser(s)))
  }

  /**
   * The section toggle of app.js:106-112: a section is shown when it is the
   * current view and its tab, if the table has one, is visible.
   */
  predicate SectionShown(section: string, view: string, user: Option<User>)
  {
    var k := FindIndex(TabsConfig, (t: Tab) => t.id == section);
    (k.None? || VisibleForTab(TabsConfig[k.value], user)) && view == section
  }

  /** After the reset, exactly the section of the current view is shown. */
  lemma ResolvedViewShowsOneSection(view: string, user: Option<User>, section: string)
    ensures SectionShown(section, ResolveView(view, user), user) <==> section == ResolveView(view, user)
  {
    var r := ResolveView(view, user);
    if section == r {
      ViewAllowedByTable(r, user);
      AnyMeans(TabsConfig, (t: Tab) => t.id == r && VisibleForTab(t, user));
      var i :| 0 <= i < |TabsConfig| && TabsConfig[i].id == r && VisibleForTab(TabsConfig[i], user);
      var k := FindIndex(TabsConfig, (t: Tab) => t.id == section);
      assert k.Some?;
      TabIdsDistinct();
      assert k.value == i;
    }
  }
}
