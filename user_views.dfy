/** The views of the user app that change users, tags and groups: joining a
    group, the list of one's groups, editing one's own profile, creating and
    updating users with their tag hooks, and assigning a tag. As in the rental
    views, each is a function from the database, the session and the request to
    the new database and the answer, with a method making the same writes on
    the `Db` object. `post` says the HTTP method is POST. */
module UserViews {
  import opened Common
  import opened Schema
  import opened Store
  import opened Sessions
  import opened Decorators
  import opened UserModels
  import opened UserForms
  import opened UserUtils

  // ---------------------------------------------------------------- groups

  /** Whether the tag test of `entrar_grupo` lets `u` into group `g`: an untagged
      group admits anyone, a tagged one only holders of its tag. */
  predicate MayEnter(s: State, u: Id, g: Id)
    requires g in s.groups.rows
  {
    s.groups.rows[g].tag.Some? ==> s.groups.rows[g].tag.value in s.TagsOf(u)
  }

  /** `entrar_grupo`: a logged-in user joins group `g` when its tag allows it and
      they are not yet a member; one membership row is then added, and nothing
      else changes. */
  function EnterGroupSpec(s: State, ses: SessionData, g: Id): (res: (State, Reply))
    ensures res.1 != Success ==> res.0 == s
    ensures res.1 == Success <==>
      && ClientRequired(ses) == Admit && ses.userId.value in s.users.rows && g in s.groups.rows
      && MayEnter(s, ses.userId.value, g) && (ses.userId.value, g) !in s.memberships
    ensures res.1 == Success ==> res.0 == s.(memberships := s.memberships + {(ses.userId.value, g)})
    ensures ClientRequired(ses) == Admit && ses.userId.value in s.users.rows && g in s.groups.rows ==>
      && (!MayEnter(s, ses.userId.value, g) ==> res.1 == Error)
      && (MayEnter(s, ses.userId.value, g) && (ses.userId.value, g) in s.memberships ==> res.1 == Warning)
  {
    var gate := ClientRequired(ses);
    if gate.Deny? then (s, gate.reply)
    else if ses.userId.value !in s.users.rows then (s, NotFound)
    else if g !in s.groups.rows then (s, NotFound)
    else if !MayEnter(s, ses.userId.value, g) then (s, Error)
    else if (ses.userId.value, g) in s.memberships then (s, Warning)
    else (s.(memberships := s.memberships + {(ses.userId.value, g)}), Success)
  }

  method EnterGroup(db: Db, ses: SessionData, g: Id) returns (reply: Reply)
    modifies db
    ensures (db.Snapshot(), reply) == EnterGroupSpec(old(db.Snapshot()), ses, g)
  {
    var gate := ClientRequired(ses);
    if gate.Deny? {
      return gate.reply;
    }
    var u := ses.userId.value;
    if u !in db.users.rows || g !in db.groups.rows {
      return NotFound;
    }
    var group := db.groups.rows[g];
    if group.tag.Some? && group.tag.value !in db.Snapshot().TagsOf(u) {
      return Error;
    }
    if (u, g) in db.memberships {
      return Warning;
    }
    db.memberships := db.memberships + {(u, g)};
    return Success;
  }

  /** Joining the same group again answers with a warning and changes nothing. */
  lemma EnterGroupTwice(s: State, ses: SessionData, g: Id)
    requires EnterGroupSpec(s, ses, g).1 == Success
    ensures var s' := EnterGroupSpec(s, ses, g).0; EnterGroupSpec(s', ses, g) == (s', Warning)
  {
    var s' := EnterGroupSpec(s, ses, g).0;
    assert s'.TagsOf(ses.userId.value) == s.TagsOf(ses.userId.value);
  }

  /** A tagged group is entered only by a user who sees it in `meus_grupos`; an
      untagged group, which nobody sees there, is open to every logged-in user. */
  lemma EnterGroupAndVisibility(s: State, ses: SessionData, g: Id)
    requires ClientRequired(ses) == Admit && ses.userId.value in s.users.rows && g in s.groups.rows
    requires (ses.userId.value, g) !in s.memberships
    ensures s.groups.rows[g].tag.Some? ==>
      (EnterGroupSpec(s, ses, g).1 == Success <==> g in VisibleGroups(s, ses.userId.value))
    ensures s.groups.rows[g].tag.None? ==>
      EnterGroupSpec(s, ses, g).1 == Success && g !in VisibleGroups(s, ses.userId.value)
  {
    VisibleGroupsExactly(s, ses.userId.value, g);
  }

  /** Joining a group keeps the database valid. */
  lemma EnterGroupKeepsValid(s: State, ses: SessionData, g: Id)
    requires s.Valid()
    ensures EnterGroupSpec(s, ses, g).0.Valid()
  {
  }

  /** What `meus_grupos` renders: the user's tags, the groups it shows and the
      groups the user is already in. */
  datatype MyGroupsPage = MyGroupsDenied(reply: Reply) | MyGroupsShown(tags: set<Id>, groups: set<Id>, joined: set<Id>)

  /** `meus_grupos`: `Grupo.objects.filter(tag__in=tags_usuario).distinct()`, or
      no group when the user has no tag. */
  function MyGroupsSpec(s: State, ses: SessionData): (a: MyGroupsPage)
    ensures a.MyGroupsDenied? <==> !ses.LoggedIn() || ses.userId.value !in s.users.rows
    ensures a.MyGroupsDenied? ==> a.reply == (if !ses.LoggedIn() then ToLogin else NotFound)
    ensures a.MyGroupsShown? ==>
      var u := ses.userId.value;
      a.tags == s.TagsOf(u) && a.groups == VisibleGroups(s, u) && a.joined == s.GroupsJoined(u)
  {
    var gate := ClientRequired(ses);
    if gate.Deny? then MyGroupsDenied(gate.reply)
    else if ses.userId.value !in s.users.rows then MyGroupsDenied(NotFound)
    else
      var u := ses.userId.value;
      var tags := s.TagsOf(u);
      AutoGroupsJoinsVisible(s, u);
      MyGroupsShown(tags, if tags == {} then {} else GroupsTaggedIn(s.groups.rows, tags), s.GroupsJoined(u))
  }

  /** Every group `meus_grupos` shows and the user is not in can be joined. */
  lemma ShownGroupsCanBeEntered(s: State, ses: SessionData, g: Id)
    requires MyGroupsSpec(s, ses).MyGroupsShown?
    requires g in MyGroupsSpec(s, ses).groups && g !in MyGroupsSpec(s, ses).joined
    ensures EnterGroupSpec(s, ses, g).1 == Success
  {
    VisibleGroupsExactly(s, ses.userId.value, g);
  }

  // --------------------------------------------------------------- profile

  /** The fields of the `editar_meu_perfil` POST; `None` is a key that is absent. */
  datatype ProfileInput = ProfileInput(
    email: Option<string>, photo: Option<string>, password: Option<string>,
    cnh: Option<string>, phone: Option<string>, address: Option<string>)

  /** The user `editar_meu_perfil` saves: the posted e-mail and photo, or the
      current ones when the keys are absent, and a new password only when one is
      given. */
  function EditedUser(user: User, f: ProfileInput): (r: User)
    ensures r.username == user.username && r.isStaff == user.isStaff && r.isSuperuser == user.isSuperuser
    ensures r.isActive == user.isActive
    ensures r.email == (if f.email.Some? then f.email.value else user.email)
    ensures r.photo == (if f.photo.Some? then f.photo else user.photo)
    ensures Given(f.password) ==> CheckPassword(r, f.password.value)
    ensures !Given(f.password) ==> r.password == user.password
  {
    var withPassword := if Given(f.password) then SetPassword(user, f.password.value) else user;
    withPassword.(email := if f.email.Some? then f.email.value else user.email,
                  photo := if f.photo.Some? then f.photo else user.photo)
  }

  /** No user but `except` has e-mail `email`, so saving it breaks no constraint. */
  predicate EmailFree(users: map<Id, User>, email: string, except: Id) {
    forall k | k in users && k != except :: users[k].email != email
  }

  /** No profile but `except` (if any) has CNH `cnh`. */
  predicate CnhFree(profiles: map<Id, Profile>, cnh: string, except: Option<Id>) {
    forall k | k in profiles && Some(k) != except :: profiles[k].cnh != cnh
  }

  /** `editar_meu_perfil`: the user row is saved first; then, for a user who is not
      staff and posted CNH, phone and address, their profile is updated or
      created. A clash on a unique column raises, after the writes made before it. */
  ghost function EditMyProfileSpec(s: State, ses: SessionData, post: bool, f: ProfileInput): (res: (State, Reply))
    ensures res.0 != s || res.1 == Success ==>
      && ClientRequired(ses) == Admit && ses.userId.value in s.users.rows && post
      && res.0.users == s.users.Update(ses.userId.value, EditedUser(s.users.rows[ses.userId.value], f))
      && res.0 == s.(users := res.0.users, profiles := res.0.profiles)
    ensures res.0.profiles != s.profiles ==>
      && ClientRequired(ses) == Admit && ses.userId.value in s.users.rows
      && !s.users.rows[ses.userId.value].isStaff && Given(f.cnh) && Given(f.phone) && Given(f.address)
    ensures res.1 == Success <==>
      && ClientRequired(ses) == Admit && ses.userId.value in s.users.rows && post
      && var u := ses.userId.value;
         var user := EditedUser(s.users.rows[u], f);
         && EmailFree(s.users.rows, user.email, u)
         && (user.isStaff || !(Given(f.cnh) && Given(f.phone) && Given(f.address))
             || CnhFree(s.profiles.rows, f.cnh.value, s.ProfileOf(u)))
    ensures ClientRequired(ses) == Admit && ses.userId.value in s.users.rows && post && res.1 != Success ==>
      res.1 == ServerError
  {
    var gate := ClientRequired(ses);
    if gate.Deny? then (s, gate.reply)
    else if ses.userId.value !in s.users.rows then (s, NotFound)
    else if !post then (s, Page)
    else
      var u := ses.userId.value;
      var user := EditedUser(s.users.rows[u], f);
      if !EmailFree(s.users.rows, user.email, u) then (s, ServerError)
      else
        var s1 := s.(users := s.users.Update(u, user));
        if user.isStaff || !(Given(f.cnh) && Given(f.phone) && Given(f.address)) then (s1, Success)
        else
          var prof := Profile(f.cnh.value, f.phone.value, f.address.value, u);
          match s.ProfileOf(u)
          case Some(p) =>
            if !CnhFree(s.profiles.rows, prof.cnh, Some(p)) then (s1, ServerError)
            else (s1.(profiles := s.profiles.Update(p, prof)), Success)
          case None =>
            if !CnhFree(s.profiles.rows, prof.cnh, None) then (s1, ServerError)
            else (s1.(profiles := s.profiles.Insert(prof)), Success)
  }

  method EditMyProfile(db: Db, ses: SessionData, post: bool, f: ProfileInput) returns (reply: Reply)
    modifies db
    ensures (db.Snapshot(), reply) == EditMyProfileSpec(old(db.Snapshot()), ses, post, f)
  {
    var gate := ClientRequired(ses);
    if gate.Deny? {
      return gate.reply;
    }
    var u := ses.userId.value;
    if u !in db.users.rows {
      return NotFound;
    }
    var p := db.FindProfile(u);
    if !post {
      return Page;
    }
    var user := EditedUser(db.users.rows[u], f);
    if !EmailFree(db.users.rows, user.email, u) {
      return ServerError;
    }
    db.users := db.users.Update(u, user);
    if user.isStaff || !(Given(f.cnh) && Given(f.phone) && Given(f.address)) {
      return Success;
    }
    var prof := Profile(f.cnh.value, f.phone.value, f.address.value, u);
    if !CnhFree(db.profiles.rows, prof.cnh, p) {
      return ServerError;
    }
    if p.Some? {
      db.profiles := db.profiles.Update(p.value, prof);
    } else {
      db.profiles := db.profiles.Insert(prof);
    }
    return Success;
  }

  /** A successful edit by a client who posted CNH, phone and address leaves them
      with exactly one profile, holding the posted values. */
  lemma EditMyProfileFillsProfile(s: State, ses: SessionData, post: bool, f: ProfileInput)
    requires s.Valid()
    requires EditMyProfileSpec(s, ses, post, f).1 == Success
    requires !s.users.rows[ses.userId.value].isStaff && Given(f.cnh) && Given(f.phone) && Given(f.address)
    ensures var s' := EditMyProfileSpec(s, ses, post, f).0;
      exists p :: p in s'.profiles.rows && s'.profiles.rows[p] == Profile(f.cnh.value, f.phone.value, f.address.value, ses.userId.value)
            && forall q | q in s'.profiles.rows && s'.profiles.rows[q].user == ses.userId.value :: q == p
  {
    var u := ses.userId.value;
    var s' := EditMyProfileSpec(s, ses, post, f).0;
    if s.ProfileOf(u).None? {
      InsertFresh(s.profiles, Profile(f.cnh.value, f.phone.value, f.address.value, u));
      assert s.profiles.next in s'.profiles.rows;
    } else {
      assert s.ProfileOf(u).value in s'.profiles.rows;
    }
  }

  /** The stored password changes only when a non-empty one is posted, and then
      to that one. */
  lemma EditMyProfilePassword(s: State, ses: SessionData, post: bool, f: ProfileInput, attempt: string)
    requires EditMyProfileSpec(s, ses, post, f).1 == Success
    ensures var u := ses.userId.value; var s' := EditMyProfileSpec(s, ses, post, f).0;
      && (Given(f.password) ==> (CheckPassword(s'.users.rows[u], attempt) <==> attempt == f.password.value))
      && (!Given(f.password) ==> s'.users.rows[u].password == s.users.rows[u].password)
  {
    var u := ses.userId.value;
    if Given(f.password) {
      CheckAfterSet(s.users.rows[u], f.password.value, attempt);
    }
  }

  /** Editing one's profile keeps the database valid. */
  lemma EditMyProfileKeepsValid(s: State, ses: SessionData, post: bool, f: ProfileInput)
    requires s.Valid()
    ensures EditMyProfileSpec(s, ses, post, f).0.Valid()
  {
    var (s', reply) := EditMyProfileSpec(s, ses, post, f);
    if s' != s {
      var u := ses.userId.value;
      var user := EditedUser(s.users.rows[u], f);
      SaveUserKeepsValid(s, u, user);
      var s1 := s.(users := s.users.Update(u, user));
      if s'.profiles != s.profiles {
        var prof := Profile(f.cnh.value, f.phone.value, f.address.value, u);
        match s.ProfileOf(u)
        case Some(p) =>
          ProfileOfUnique(s, u, p);
          UpdateProfileKeepsValid(s1, p, prof);
        case None =>
          InsertProfileKeepsValid(s1, prof);
      }
    }
  }

  /** Saving user `k` with a username and e-mail no other user has keeps the
      database valid. */
  lemma SaveUserKeepsValid(s: State, k: Id, user: User)
    requires s.Valid() && k in s.users.rows
    requires forall j | j in s.users.rows && j != k :: s.users.rows[j].username != user.username
    requires EmailFree(s.users.rows, user.email, k)
    ensures s.(users := s.users.Update(k, user)).Valid()
  {
    UpdateDeleteKeepKeys(s.users, k, user);
  }

  /** Inserting a user whose username and e-mail are new keeps the database valid. */
  lemma InsertUserKeepsValid(s: State, user: User)
    requires s.Valid()
    requires forall j | j in s.users.rows :: s.users.rows[j].username != user.username && s.users.rows[j].email != user.email
    ensures s.(users := s.users.Insert(user)).Valid()
    ensures s.users.next !in s.users.rows
  {
    InsertFresh(s.users, user);
  }

  /** Replacing profile `k` of a user by one for the same user, with a CNH no
      other profile has, keeps the database valid. */
  lemma UpdateProfileKeepsValid(s: State, k: Id, prof: Profile)
    requires s.Valid() && k in s.profiles.rows && s.profiles.rows[k].user == prof.user
    requires CnhFree(s.profiles.rows, prof.cnh, Some(k))
    ensures s.(profiles := s.profiles.Update(k, prof)).Valid()
  {
    UpdateDeleteKeepKeys(s.profiles, k, prof);
  }

  /** Inserting the first profile of an existing user, with a new CNH, keeps the
      database valid. */
  lemma InsertProfileKeepsValid(s: State, prof: Profile)
    requires s.Valid() && prof.user in s.users.rows && s.ProfileOf(prof.user).None?
    requires CnhFree(s.profiles.rows, prof.cnh, None)
    ensures s.(profiles := s.profiles.Insert(prof)).Valid()
  {
    InsertFresh(s.profiles, prof);
    RequestsGrowProfiles(s, {s.profiles.next});
  }

  /** More profiles keep the references of requests and rentals to profiles. */
  lemma RequestsGrowProfiles(s: State, more: set<Id>)
    requires s.Valid()
    ensures RequestsOk(s.requests.rows, s.profiles.rows.Keys + more, s.cars.rows.Keys, s.rentals.rows.Keys)
    ensures RentalsOk(s.rentals.rows, s.profiles.rows.Keys + more, s.cars.rows.Keys, s.users.rows.Keys)
  {
  }

  // ----------------------------------------------------------------- users

  /** The fields of the user forms. `password` and `confirm` are the two password
      fields, blank when left empty. */
  datatype UserInput = UserInput(
    username: string, email: string, password: string, confirm: string, photo: Option<string>,
    isActive: bool, isStaff: bool, isSuperuser: bool)

  /** The user a form's fields describe, with the password `password`. */
  function FormUser(f: UserInput, password: PasswordHash): (u: User)
    ensures u.username == f.username && u.email == f.email && u.password == password && u.photo == f.photo
    ensures u.isActive == f.isActive && u.isStaff == f.isStaff && u.isSuperuser == f.isSuperuser
  {
    User(f.username, f.email, password, f.isActive, f.isStaff, f.isSuperuser, f.photo)
  }

  /** The model-field checks of the user forms: username and e-mail are required
      and not used by another user than the one edited (`validate_unique`). */
  predicate UserFieldsOk(users: map<Id, User>, f: UserInput, editing: Option<Id>) {
    && f.username != [] && f.email != []
    && forall k | k in users && Some(k) != editing :: users[k].username != f.username && users[k].email != f.email
  }

  /** The user `UsuarioForm.save` builds: the form's fields, with the password
      set from the posted value (the raw value the form first stores is always
      replaced). */
  function NewUser(f: UserInput): (u: User)
    ensures u.(password := HashOf(f.password)) == FormUser(f, HashOf(f.password))
    ensures CheckPassword(u, f.password)
  {
    SaveCreated(FormUser(f, HashOf([])), f.password)
  }

  /** `usuario_create`: an administrator's valid `UsuarioForm` inserts the user,
      with the hash of the posted password, and then gives it its automatic tags. */
  ghost function CreateUserSpec(s: State, ses: SessionData, post: bool, f: UserInput): (res: (State, Reply))
    ensures res.1 != Success ==> res.0 == s
    ensures res.1 == Success <==>
      AdminRequired(ses) == Admit && post && UserFieldsOk(s.users.rows, f, None) && CreatePasswordErrors(f.password, f.confirm) == {}
  {
    var gate := AdminRequired(ses);
    if gate.Deny? then (s, gate.reply)
    else if !post then (s, Page)
    else if !(UserFieldsOk(s.users.rows, f, None) && CreatePasswordErrors(f.password, f.confirm) == {}) then (s, FormErrors)
    else
      var s1 := s.(users := s.users.Insert(NewUser(f)));
      (AutoTagsSpec(s1, s.users.next).0, Success)
  }

  method CreateUser(db: Db, ses: SessionData, post: bool, f: UserInput) returns (reply: Reply)
    modifies db
    ensures (db.Snapshot(), reply) == CreateUserSpec(old(db.Snapshot()), ses, post, f)
  {
    var gate := AdminRequired(ses);
    if gate.Deny? {
      return gate.reply;
    }
    if !post {
      return Page;
    }
    if !(UserFieldsOk(db.users.rows, f, None) && CreatePasswordErrors(f.password, f.confirm) == {}) {
      return FormErrors;
    }
    var u := db.users.next;
    db.users := db.users.Insert(NewUser(f));
    var given := AssignAutomaticTags(db, u);
    return Success;
  }

  /** A created user is a new row holding the form's fields, whose password is the
      one posted (which met every rule), and which holds exactly the role tags its
      flags call for, among the tags that exist. Nothing but the users and the
      user-tag rows changes. */
  lemma CreateUserEffect(s: State, ses: SessionData, post: bool, f: UserInput, attempt: string)
    requires s.Valid()
    requires CreateUserSpec(s, ses, post, f).1 == Success
    ensures var s' := CreateUserSpec(s, ses, post, f).0; var u := s.users.next;
      && u !in s.users.rows && s'.users.rows == s.users.rows[u := s'.users.rows[u]]
      && s'.users.rows[u].(password := HashOf(f.password)) == FormUser(f, HashOf(f.password))
      && (CheckPassword(s'.users.rows[u], attempt) <==> attempt == f.password)
      && Strong(f.password)
      && s' == s.(users := s'.users, userTags := s'.userTags)
      && (forall t | t in s.tags.rows :: (u, t) in s'.userTags <==> s.tags.rows[t].name in RoleTagsFor(NewUser(f)))
  {
    var u := s.users.next;
    var user := NewUser(f);
    InsertUserKeepsValid(s, user);
    var s1 := s.(users := s.users.Insert(user));
    AutoTagsEffect(s1, u);
    CheckAfterSet(FormUser(f, HashOf([])), f.password, attempt);
    forall t | t in s.tags.rows ensures (u, t) in CreateUserSpec(s, ses, post, f).0.userTags <==> s.tags.rows[t].name in RoleTagsFor(user) {
      assert (u, t) !in s.userTags;
      TagNamedUnique(s1, s.tags.rows[t].name, t);
      TagNamedReadsTags(s, s1, s.tags.rows[t].name);
      if (u, t) in RulePairs(s1, u) {
        var n :| n in RoleTagsFor(s1.users.rows[u]) && s1.TagNamed(n).Some? && (u, t) == (u, s1.TagNamed(n).value);
      }
      if s.tags.rows[t].name in RoleTagsFor(user) {
        assert (u, t) in RulePairs(s1, u);
      }
    }
  }

  /** Creating a user keeps the database valid. */
  lemma CreateUserKeepsValid(s: State, ses: SessionData, post: bool, f: UserInput)
    requires s.Valid()
    ensures CreateUserSpec(s, ses, post, f).0.Valid()
  {
    if CreateUserSpec(s, ses, post, f).1 == Success {
      InsertUserKeepsValid(s, NewUser(f));
      AutoTagsKeepsValid(s.(users := s.users.Insert(NewUser(f))), s.users.next);
    }
  }

  /** The user `UsuarioUpdateForm.save` writes over `old`: the form's fields, and
      the stored password unless a new one is posted. */
  function UpdatedUser(old_: User, f: UserInput): (u: User)
    ensures f.password == [] ==> u == FormUser(f, old_.password)
    ensures f.password != [] ==> CheckPassword(u, f.password)
    ensures u.(password := old_.password) == FormUser(f, old_.password)
  {
    SaveUpdated(FormUser(f, old_.password), f.password)
  }

  /** `usuario_update`: an administrator's valid `UsuarioUpdateForm` saves user
      `pk`, and then its role tags are re-synced with its new flags. */
  ghost function UpdateUserSpec(s: State, ses: SessionData, pk: Id, post: bool, f: UserInput): (res: (State, Reply))
    ensures res.1 != Success ==> res.0 == s
    ensures res.1 == Success <==>
      && AdminRequired(ses) == Admit && pk in s.users.rows && post
      && UserFieldsOk(s.users.rows, f, Some(pk)) && UpdatePasswordErrors(f.password, f.confirm) == {}
  {
    var gate := AdminRequired(ses);
    if gate.Deny? then (s, gate.reply)
    else if pk !in s.users.rows then (s, NotFound)
    else if !post then (s, Page)
    else if !(UserFieldsOk(s.users.rows, f, Some(pk)) && UpdatePasswordErrors(f.password, f.confirm) == {}) then (s, FormErrors)
    else
      var s1 := s.(users := s.users.Update(pk, UpdatedUser(s.users.rows[pk], f)));
      (UpdateRoleTagsSpec(s1, pk).0, Success)
  }

  method UpdateUser(db: Db, ses: SessionData, pk: Id, post: bool, f: UserInput) returns (reply: Reply)
    modifies db
    ensures (db.Snapshot(), reply) == UpdateUserSpec(old(db.Snapshot()), ses, pk, post, f)
  {
    var gate := AdminRequired(ses);
    if gate.Deny? {
      return gate.reply;
    }
    if pk !in db.users.rows {
      return NotFound;
    }
    if !post {
      return Page;
    }
    if !(UserFieldsOk(db.users.rows, f, Some(pk)) && UpdatePasswordErrors(f.password, f.confirm) == {}) {
      return FormErrors;
    }
    db.users := db.users.Update(pk, UpdatedUser(db.users.rows[pk], f));
    var given := UpdateRoleTags(db, pk);
    return Success;
  }

  /** An update keeps the user's manual tags, and afterwards the user holds a role
      tag exactly when its new flags call for it. A blank password keeps the old
      one. */
  lemma UpdateUserEffect(s: State, ses: SessionData, pk: Id, post: bool, f: UserInput)
    requires s.Valid()
    requires UpdateUserSpec(s, ses, pk, post, f).1 == Success
    ensures var s' := UpdateUserSpec(s, ses, pk, post, f).0;
      && s'.users.rows == s.users.rows[pk := UpdatedUser(s.users.rows[pk], f)]
      && (f.password == [] ==> s'.users.rows[pk].password == s.users.rows[pk].password)
      && (forall t | t in s.tags.rows && s.tags.rows[t].name !in RoleTagNames ::
            (pk, t) in s'.userTags <==> (pk, t) in s.userTags)
      && (forall t | t in s.tags.rows && s.tags.rows[t].name in RoleTagNames ::
            (pk, t) in s'.userTags <==> s.tags.rows[t].name in RoleTagsFor(UpdatedUser(s.users.rows[pk], f)))
  {
    var s1 := s.(users := s.users.Update(pk, UpdatedUser(s.users.rows[pk], f)));
    UpdateRoleTagsEffect(s1, pk);
    var s2 := s1.(userTags := s1.userTags - RolePairs(s1, pk));
    AutoTagsEffect(s2, pk);
    RulePairsAreRoleTags(s2, pk);
  }

  /** Updating a user keeps the database valid. */
  lemma UpdateUserKeepsValid(s: State, ses: SessionData, pk: Id, post: bool, f: UserInput)
    requires s.Valid()
    ensures UpdateUserSpec(s, ses, pk, post, f).0.Valid()
  {
    if UpdateUserSpec(s, ses, pk, post, f).1 == Success {
      var user := UpdatedUser(s.users.rows[pk], f);
      SaveUserKeepsValid(s, pk, user);
      UpdateRoleTagsKeepsValid(s.(users := s.users.Update(pk, user)), pk);
    }
  }

  // ------------------------------------------------------------------ tags

  /** `usuario_tag_create`: an administrator's valid `UsuarioTagForm` adds one
      user-tag row. The form checks `unique_together`, so a pair the user already
      holds is a form error and adds nothing. */
  function AssignTagSpec(s: State, ses: SessionData, post: bool, user: Option<Id>, tag: Option<Id>): (res: (State, Reply))
    ensures res.1 != Success ==> res.0 == s
    ensures res.1 == Success <==>
      && AdminRequired(ses) == Admit && post && user.Some? && user.value in s.users.rows
      && tag.Some? && tag.value in s.tags.rows && (user.value, tag.value) !in s.userTags
    ensures res.1 == Success ==> res.0 == s.(userTags := s.userTags + {(user.value, tag.value)})
    ensures AdminRequired(ses) == Admit && post && user.Some? && tag.Some? && (user.value, tag.value) in s.userTags ==>
      res == (s, FormErrors)
  {
    var gate := AdminRequired(ses);
    if gate.Deny? then (s, gate.reply)
    else if !post then (s, Page)
    else if !(user.Some? && user.value in s.users.rows && tag.Some? && tag.value in s.tags.rows) then (s, FormErrors)
    else if (user.value, tag.value) in s.userTags then (s, FormErrors)
    else (s.(userTags := s.userTags + {(user.value, tag.value)}), Success)
  }

  method AssignTag(db: Db, ses: SessionData, post: bool, user: Option<Id>, tag: Option<Id>) returns (reply: Reply)
    modifies db
    ensures (db.Snapshot(), reply) == AssignTagSpec(old(db.Snapshot()), ses, post, user, tag)
  {
    var gate := AdminRequired(ses);
    if gate.Deny? {
      return gate.reply;
    }
    if !post {
      return Page;
    }
    if !(user.Some? && user.value in db.users.rows && tag.Some? && tag.value in db.tags.rows) {
      return FormErrors;
    }
    if (user.value, tag.value) in db.userTags {
      return FormErrors;
    }
    db.userTags := db.userTags + {(user.value, tag.value)};
    return Success;
  }

  /** Assigning the same tag twice: the second time is a form error and adds nothing. */
  lemma AssignTagTwice(s: State, ses: SessionData, post: bool, user: Option<Id>, tag: Option<Id>)
    requires AssignTagSpec(s, ses, post, user, tag).1 == Success
    ensures var s' := AssignTagSpec(s, ses, post, user, tag).0; AssignTagSpec(s', ses, post, user, tag) == (s', FormErrors)
  {
  }

  /** Assigning a tag keeps the database valid. */
  lemma AssignTagKeepsValid(s: State, ses: SessionData, post: bool, user: Option<Id>, tag: Option<Id>)
    requires s.Valid()
    ensures AssignTagSpec(s, ses, post, user, tag).0.Valid()
  {
  }
}
