/** The authentication views: self-registration of a client, login and logout,
    which write the session, and the two dashboards, which only let the right
    session in. */
module AuthViews {
  import opened Common
  import opened Schema
  import opened Store
  import opened Sessions
  import opened UserModels
  import opened UserForms
  import opened UserUtils
  import opened UserViews

  // -------------------------------------------------------------- register

  /** The user `register` saves: the form's user with the role flags forced, so
      whatever the form posted, the new user is an active client. */
  function RegisteredUser(f: UserInput): (u: User)
    ensures !u.isStaff && !u.isSuperuser && u.isActive
    ensures u.username == f.username && u.email == f.email && u.photo == f.photo
    ensures CheckPassword(u, f.password)
  {
    NewUser(f).(isStaff := false, isSuperuser := false, isActive := true)
  }

  /** `register`: a valid `UsuarioForm` inserts the user as a client, gives it its
      automatic tags and then puts it in the groups of those tags; the answer is
      the redirect to the login page. */
  ghost function RegisterSpec(s: State, post: bool, f: UserInput): (res: (State, Reply))
    ensures res.1 != Success ==> res.0 == s
    ensures res.1 == Success <==>
      post && UserFieldsOk(s.users.rows, f, None) && CreatePasswordErrors(f.password, f.confirm) == {}
  {
    if !post then (s, Page)
    else if !(UserFieldsOk(s.users.rows, f, None) && CreatePasswordErrors(f.password, f.confirm) == {}) then (s, FormErrors)
    else
      var u := s.users.next;
      var s1 := s.(users := s.users.Insert(RegisteredUser(f)));
      (AutoGroupsSpec(AutoTagsSpec(s1, u).0, u), Success)
  }

  method Register(db: Db, post: bool, f: UserInput) returns (reply: Reply)
    modifies db
    ensures (db.Snapshot(), reply) == RegisterSpec(old(db.Snapshot()), post, f)
  {
    if !post {
      return Page;
    }
    if !(UserFieldsOk(db.users.rows, f, None) && CreatePasswordErrors(f.password, f.confirm) == {}) {
      return FormErrors;
    }
    var u := db.users.next;
    db.users := db.users.Insert(RegisteredUser(f));
    var tags := AssignAutomaticTags(db, u);
    var groups, ids := AddUserToAutomaticGroups(db, u);
    return Success;
  }

  /** A registered user is a new client holding only the "Cliente Novo" tag (when
      it exists), and is a member of exactly the groups with that tag: the groups
      follow from the tags, which are given first. */
  lemma RegisterJoinsNewClientGroups(s: State, post: bool, f: UserInput)
    requires s.Valid()
    requires RegisterSpec(s, post, f).1 == Success
    ensures var s' := RegisterSpec(s, post, f).0; var u := s.users.next;
      && u !in s.users.rows && u in s'.users.rows && s'.users.rows[u] == RegisteredUser(f)
      && s'.users.rows == s.users.rows[u := RegisteredUser(f)]
      && (s.TagNamed(NewClientTag).None? ==> s'.TagsOf(u) == {} && s'.GroupsJoined(u) == {})
      && (s.TagNamed(NewClientTag).Some? ==>
            var t := s.TagNamed(NewClientTag).value;
            s'.TagsOf(u) == {t} && s'.GroupsJoined(u) == GroupsTaggedIn(s.groups.rows, {t}))
  {
    var u := s.users.next;
    var user := RegisteredUser(f);
    var s1 := s.(users := s.users.Insert(user));
    RegisteredTags(s, f);
    var s2 := AutoTagsSpec(s1, u).0;
    AutoGroupsJoinsVisible(s2, u);
    forall g ensures g in GroupsTaggedIn(s2.groups.rows, s2.TagsOf(u)) <==> g in VisibleGroups(s2, u) {
      VisibleGroupsExactly(s2, u, g);
    }
  }

  /** The automatic tags of a newly inserted client: "Cliente Novo" alone, if it
      exists; so far it belongs to no group. */
  lemma RegisteredTags(s: State, f: UserInput)
    requires s.Valid()
    ensures var u := s.users.next; var s1 := s.(users := s.users.Insert(RegisteredUser(f)));
      var s2 := AutoTagsSpec(s1, u).0;
      && u !in s.users.rows
      && s2 == s1.(userTags := s2.userTags)
      && s2.GroupsJoined(u) == {}
      && (s.TagNamed(NewClientTag).None? ==> s2.TagsOf(u) == {})
      && (s.TagNamed(NewClientTag).Some? ==> s2.TagsOf(u) == {s.TagNamed(NewClientTag).value})
  {
    var u := s.users.next;
    var user := RegisteredUser(f);
    InsertFresh(s.users, user);
    var s1 := s.(users := s.users.Insert(user));
    AutoTagsEffect(s1, u);
    var s2 := AutoTagsSpec(s1, u).0;
    TagNamedReadsTags(s, s1, NewClientTag);
    assert s.TagsOf(u) == {};
    assert RoleTagsFor(user) == {NewClientTag};
    if s.TagNamed(NewClientTag).Some? {
      assert RulePairs(s1, u) == {(u, s.TagNamed(NewClientTag).value)};
    } else {
      assert RulePairs(s1, u) == {};
    }
    assert s.GroupsJoined(u) == {};
  }

  /** Registering keeps the database valid. */
  lemma RegisterKeepsValid(s: State, post: bool, f: UserInput)
    requires s.Valid()
    ensures RegisterSpec(s, post, f).0.Valid()
  {
    if RegisterSpec(s, post, f).1 == Success {
      var u := s.users.next;
      InsertUserKeepsValid(s, RegisteredUser(f));
      var s1 := s.(users := s.users.Insert(RegisteredUser(f)));
      AutoTagsKeepsValid(s1, u);
      AutoGroupsKeepsValid(AutoTagsSpec(s1, u).0, u);
    }
  }

  // ----------------------------------------------------------------- login

  /** The dashboard a session of a staff user, or of a client, is sent to. */
  function DashboardFor(isStaff: bool): (r: Reply)
    ensures r in {ToStaffDashboard, ToClientDashboard}
    ensures r == ToStaffDashboard <==> isStaff
  {
    if isStaff then ToStaffDashboard else ToClientDashboard
  }

  /** The session keys `login_view` writes for user `u`. */
  function SessionOf(u: Id, user: User): (d: SessionData)
    ensures d.userId == Some(u) && d.username == Some(user.username)
    ensures d.isStaff == user.isStaff && d.isSuperuser == user.isSuperuser
  {
    SessionData(Some(u), Some(user.username), user.isStaff, user.isSuperuser)
  }

  /** `login_view`: a logged-in session goes straight to its dashboard; a POST whose
      username names a user and whose password checks logs that user in; anything
      else leaves the session as it was. A missing username finds no user and a
      missing password never checks. */
  ghost function LoginSpec(s: State, ses: SessionData, post: bool, username: Option<string>, password: Option<string>): (res: (SessionData, Reply))
    ensures res.1 !in {ToStaffDashboard, ToClientDashboard} ==> res.0 == ses
    ensures ses.LoggedIn() ==> res == (ses, DashboardFor(ses.isStaff))
    ensures res.0 != ses ==>
      && res.0.userId.Some? && res.0.userId.value in s.users.rows
      && res.0 == SessionOf(res.0.userId.value, s.users.rows[res.0.userId.value])
      && res.1 == DashboardFor(res.0.isStaff)
      && username == Some(s.users.rows[res.0.userId.value].username)
      && password.Some? && CheckPassword(s.users.rows[res.0.userId.value], password.value)
    ensures !ses.LoggedIn() && !post ==> res == (ses, Page)
    ensures !ses.LoggedIn() && post && (username.None? || s.UserNamed(username.value).None?) ==>
      res == (ses, Error)
  {
    if ses.LoggedIn() then (ses, DashboardFor(ses.isStaff))
    else if !post then (ses, Page)
    else
      match (if username.None? then None else s.UserNamed(username.value))
      case None => (ses, Error)
      case Some(u) =>
        var user := s.users.rows[u];
        if password.Some? && CheckPassword(user, password.value) then (SessionOf(u, user), DashboardFor(user.isStaff))
        else (ses, Error)
  }

  method Login(db: Db, ses: Session, post: bool, username: Option<string>, password: Option<string>) returns (reply: Reply)
    modifies ses
    ensures (ses.Data(), reply) == LoginSpec(db.Snapshot(), old(ses.Data()), post, username, password)
  {
    if ses.userId.Some? && ses.userId.value != 0 {
      return DashboardFor(ses.isStaff);
    }
    if !post {
      return Page;
    }
    if username.None? {
      return Error;
    }
    var u := db.FindUser(username.value);
    if u.None? {
      return Error;
    }
    var user := db.users.rows[u.value];
    if !(password.Some? && CheckPassword(user, password.value)) {
      return Error;
    }
    ses.Store(SessionOf(u.value, user));
    return DashboardFor(user.isStaff);
  }

  /** With the usernames unique, a POST naming an existing user logs in exactly
      when the password is that user's, and the session then carries the user's
      key and role flags; otherwise it is unchanged. */
  lemma LoginChecksPassword(s: State, ses: SessionData, u: Id, password: string)
    requires s.Valid() && u in s.users.rows && !ses.LoggedIn()
    ensures var (ses', reply) := LoginSpec(s, ses, true, Some(s.users.rows[u].username), Some(password));
      && (reply != Error <==> CheckPassword(s.users.rows[u], password))
      && (reply != Error ==> ses' == SessionOf(u, s.users.rows[u]) && ses'.LoggedIn() && reply == DashboardFor(s.users.rows[u].isStaff))
      && (reply == Error ==> ses' == ses)
  {
    UserNamedUnique(s, s.users.rows[u].username, u);
  }

  /** A user who has just registered can log in with the username and password
      they registered with, and lands on the client dashboard. */
  lemma RegisterThenLogin(s: State, post: bool, f: UserInput, ses: SessionData)
    requires s.Valid() && RegisterSpec(s, post, f).1 == Success && !ses.LoggedIn()
    ensures var s' := RegisterSpec(s, post, f).0;
      LoginSpec(s', ses, true, Some(f.username), Some(f.password)) == (SessionOf(s.users.next, RegisteredUser(f)), ToClientDashboard)
  {
    RegisterJoinsNewClientGroups(s, post, f);
    RegisterKeepsValid(s, post, f);
    var s' := RegisterSpec(s, post, f).0;
    LoginChecksPassword(s', ses, s.users.next, f.password);
  }

  /** `logout_view`: the session is flushed and the caller sent home. */
  method Logout(ses: Session) returns (reply: Reply)
    modifies ses
    ensures ses.Data() == Anonymous && !ses.Data().LoggedIn()
    ensures reply == Redirect
  {
    ses.Flush();
    return Redirect;
  }

  // ------------------------------------------------------------ dashboards

  /** `dashboard_cliente`: a staff session is sent to the staff dashboard; a
      session whose user no longer exists is flushed and sent to the login page. */
  function ClientDashboardSpec(users: set<Id>, ses: SessionData): (res: (SessionData, Reply))
    ensures res.1 == Page <==> ses.LoggedIn() && !ses.isStaff && ses.userId.value in users
    ensures res.0 != ses ==> res.0 == Anonymous && res.1 == ToLogin
    ensures ses.LoggedIn() && ses.isStaff ==> res == (ses, ToStaffDashboard)
  {
    if !ses.LoggedIn() then (ses, ToLogin)
    else if ses.isStaff then (ses, ToStaffDashboard)
    else if ses.userId.value !in users then (Anonymous, ToLogin)
    else (ses, Page)
  }

  /** `dashboard_funcionario`: a client session is refused and sent to the client
      dashboard; a stale session is flushed. */
  function StaffDashboardSpec(users: set<Id>, ses: SessionData): (res: (SessionData, Reply))
    ensures res.1 == Page <==> ses.LoggedIn() && ses.isStaff && ses.userId.value in users
    ensures res.0 != ses ==> res.0 == Anonymous && res.1 == ToLogin
    ensures ses.LoggedIn() && !ses.isStaff ==> res == (ses, ToClientDashboard)
  {
    if !ses.LoggedIn() then (ses, ToLogin)
    else if !ses.isStaff then (ses, ToClientDashboard)
    else if ses.userId.value !in users then (Anonymous, ToLogin)
    else (ses, Page)
  }

  method ClientDashboard(users: set<Id>, ses: Session) returns (reply: Reply)
    modifies ses
    ensures (ses.Data(), reply) == ClientDashboardSpec(users, old(ses.Data()))
  {
    if !(ses.userId.Some? && ses.userId.value != 0) {
      return ToLogin;
    }
    if ses.isStaff {
      return ToStaffDashboard;
    }
    if ses.userId.value !in users {
      ses.Flush();
      return ToLogin;
    }
    return Page;
  }

  method StaffDashboard(users: set<Id>, ses: Session) returns (reply: Reply)
    modifies ses
    ensures (ses.Data(), reply) == StaffDashboardSpec(users, old(ses.Data()))
  {
    if !(ses.userId.Some? && ses.userId.value != 0) {
      return ToLogin;
    }
    if !ses.isStaff {
      return ToClientDashboard;
    }
    if ses.userId.value !in users {
      ses.Flush();
      return ToLogin;
    }
    return Page;
  }

  /** No session sees both dashboards, and each dashboard's redirect of a live
      session leads to the other one, which then renders. */
  lemma DashboardsSplitSessions(users: set<Id>, ses: SessionData)
    ensures !(ClientDashboardSpec(users, ses).1 == Page && StaffDashboardSpec(users, ses).1 == Page)
    ensures ses.LoggedIn() && ses.userId.value in users ==>
      && (ClientDashboardSpec(users, ses).1 == ToStaffDashboard ==> StaffDashboardSpec(users, ses).1 == Page)
      && (StaffDashboardSpec(users, ses).1 == ToClientDashboard ==> ClientDashboardSpec(users, ses).1 == Page)
  {
  }

  /** After a login the dashboard the user is sent to renders for the new session. */
  lemma LoginLandsOnItsDashboard(s: State, ses: SessionData, post: bool, username: Option<string>, password: Option<string>)
    requires s.Valid() && !ses.LoggedIn()
    requires LoginSpec(s, ses, post, username, password).1 in {ToStaffDashboard, ToClientDashboard}
    ensures var (ses', reply) := LoginSpec(s, ses, post, username, password);
      && (reply == ToClientDashboard ==> ClientDashboardSpec(s.users.rows.Keys, ses') == (ses', Page))
      && (reply == ToStaffDashboard ==> StaffDashboardSpec(s.users.rows.Keys, ses') == (ses', Page))
  {
  }
}
