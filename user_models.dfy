/** The user model's own methods: setting and checking a password, and the
    groups a user may see through their tags. */
module UserModels {
  import opened Common
  import opened Schema
  import opened Store

  /** `Usuario.set_password`: the stored password becomes the hash of `raw`;
      nothing else about the user changes. */
  function SetPassword(u: User, raw: string): (r: User)
    ensures r.password == HashOf(raw)
    ensures r.(password := u.password) == u
  {
    u.(password := HashOf(raw))
  }

  /** `Usuario.check_password`: `raw` is the password whose hash is stored. */
  predicate CheckPassword(u: User, raw: string) {
    u.password == HashOf(raw)
  }

  /** The password last given to `set_password` is accepted, and only that one:
      the model's hash has no collisions. */
  lemma CheckAfterSet(u: User, raw: string, attempt: string)
    ensures CheckPassword(SetPassword(u, raw), attempt) <==> attempt == raw
  {
  }

  /** Setting a password twice leaves only the second. */
  lemma SetPasswordTwice(u: User, first: string, second: string)
    ensures SetPassword(SetPassword(u, first), second) == SetPassword(u, second)
  {
  }

  /** `Usuario.get_grupos_visiveis`: no group at all when the user has no tag,
      otherwise the groups whose tag is one of the user's tags. A set, so each
      group is listed once, as with `distinct()`. */
  function VisibleGroups(s: State, u: Id): (gs: set<Id>)
    ensures gs <= s.groups.rows.Keys
    ensures s.TagsOf(u) == {} ==> gs == {}
  {
    if s.TagsOf(u) == {} then {}
    else set g | g in s.groups.rows && s.groups.rows[g].tag.Some? && s.groups.rows[g].tag.value in s.TagsOf(u)
  }

  /** A group is visible exactly when it has a tag the user holds; a group with
      no tag is never visible. The test for "no tags" changes nothing. */
  lemma VisibleGroupsExactly(s: State, u: Id, g: Id)
    ensures g in VisibleGroups(s, u) <==>
      g in s.groups.rows && s.groups.rows[g].tag.Some? && (u, s.groups.rows[g].tag.value) in s.userTags
    ensures g in s.groups.rows && s.groups.rows[g].tag.None? ==> g !in VisibleGroups(s, u)
  {
    if g in s.groups.rows && s.groups.rows[g].tag.Some? && (u, s.groups.rows[g].tag.value) in s.userTags {
      assert s.groups.rows[g].tag.value in s.TagsOf(u);
    }
  }

  /** Holding more tags never hides a group. */
  lemma VisibleGroupsGrow(s: State, u: Id, more: set<(Id, Id)>)
    ensures VisibleGroups(s, u) <= VisibleGroups(s.(userTags := s.userTags + more), u)
  {
    var s' := s.(userTags := s.userTags + more);
    forall g | g in VisibleGroups(s, u) ensures g in VisibleGroups(s', u) {
      VisibleGroupsExactly(s, u, g);
      VisibleGroupsExactly(s', u, g);
    }
  }
}
