/** The tagging helpers of the user app: seeding the default tags and groups,
    giving a user the tags of their role, re-syncing those tags when the role
    changes, and joining a user to the groups of their tags. Each helper is a
    method on `Db` proved against a function of the database it starts from. */
module UserUtils {
  import opened Common
  import opened Schema
  import opened Store
  import opened UserModels

  /** The names of the role tags. */
  const NewClientTag: string := "Cliente Novo"
  const VipClientTag: string := "Cliente VIP"
  const StaffTag: string := "Funcionário"
  const AdminTag: string := "Administrador"

  /** The tags `criar_tags_padrao` makes sure exist, in its order. */
  const DefaultTags: seq<Tag> := [
    Tag(NewClientTag, "success", "bi-star-fill", Some("Clientes que acabaram de se cadastrar")),
    Tag(VipClientTag, "warning", "bi-award-fill", Some("Clientes premium com benefícios exclusivos")),
    Tag(StaffTag, "info", "bi-person-badge-fill", Some("Funcionários da empresa")),
    Tag(AdminTag, "danger", "bi-shield-fill-check", Some("Administradores do sistema"))]

  /** No two templates share a name. */
  predicate DistinctNames(ts: seq<Tag>) {
    forall i, j | 0 <= i < j < |ts| :: ts[i].name != ts[j].name
  }

  /** Some template has name `n`. */
  predicate Named(ts: seq<Tag>, n: string) {
    exists i | 0 <= i < |ts| :: ts[i].name == n
  }

  /** `Tag.objects.get_or_create(nome=t.name, defaults=...)` for one template:
      a tag of that name is left as it is, otherwise `t` is inserted and its
      name reported as created. */
  ghost function GetOrCreateTag(s: State, t: Tag): (res: (State, seq<string>))
  {
    if s.TagNamed(t.name).Some? then (s, []) else (s.(tags := s.tags.Insert(t)), [t.name])
  }

  /** The loop of `criar_tags_padrao` over the templates `ts`, left to right. */
  ghost function SeedTags(s: State, ts: seq<Tag>): (res: (State, seq<string>))
    decreases |ts|
  {
    if ts == [] then (s, [])
    else
      var (s1, c1) := SeedTags(s, ts[..|ts| - 1]);
      var (s2, c2) := GetOrCreateTag(s1, ts[|ts| - 1]);
      (s2, c1 + c2)
  }

  /** `criar_tags_padrao`. */
  method CreateDefaultTags(db: Db) returns (created: seq<string>)
    modifies db
    ensures (db.Snapshot(), created) == SeedTags(old(db.Snapshot()), DefaultTags)
  {
    created := GetOrCreateTags(db, DefaultTags);
  }

  /** The loop of `criar_tags_padrao`, over any templates. */
  method GetOrCreateTags(db: Db, ts: seq<Tag>) returns (created: seq<string>)
    modifies db
    ensures (db.Snapshot(), created) == SeedTags(old(db.Snapshot()), ts)
  {
    ghost var s0 := db.Snapshot();
    created := [];
    var i := 0;
    while i < |ts|
      invariant 0 <= i <= |ts|
      invariant (db.Snapshot(), created) == SeedTags(s0, ts[..i])
    {
      var t := ts[i];
      ghost var step := GetOrCreateTag(db.Snapshot(), t);
      assert ts[..i + 1][..i] == ts[..i];
      assert SeedTags(s0, ts[..i + 1]) == (step.0, created + step.1);
      var found := db.FindTag(t.name);
      if found.None? {
        db.tags := db.tags.Insert(t);
        created := created + [t.name];
      }
      assert db.Snapshot() == step.0;
      assert created == SeedTags(s0, ts[..i + 1]).1 by {
        if found.Some? {
          assert step.1 == [];
          assert created + [] == created;
        }
      }
      i := i + 1;
    }
    assert ts[..|ts|] == ts;
  }

  /** After an insert into the tag table, a tag is found by name exactly when one
      was found before or the inserted tag has that name. */
  lemma TagNamedAfterInsert(s: State, t: Tag, n: string)
    requires s.tags.KeysOk()
    ensures s.(tags := s.tags.Insert(t)).TagNamed(n).Some? <==> s.TagNamed(n).Some? || t.name == n
  {
    InsertFresh(s.tags, t);
    var s' := s.(tags := s.tags.Insert(t));
    if s.TagNamed(n).Some? {
      assert s'.tags.rows[s.TagNamed(n).value].name == n;
    }
    if t.name == n {
      assert s'.tags.rows[s.tags.next].name == n;
    }
  }

  /** What seeding the tags does, for templates with distinct names: only the
      tag table changes, existing tags keep their keys and contents, every
      template's name is then found, and the names reported are exactly those
      of the templates no tag had. */
  lemma {:induction false} SeedTagsEffect(s: State, ts: seq<Tag>)
    requires s.tags.KeysOk() && DistinctNames(ts)
    ensures var (s', created) := SeedTags(s, ts);
      && s' == s.(tags := s'.tags) && s'.tags.KeysOk()
      && (forall k | k in s.tags.rows :: k in s'.tags.rows && s'.tags.rows[k] == s.tags.rows[k])
      && (forall k | k in s'.tags.rows && k !in s.tags.rows :: exists i | 0 <= i < |ts| :: s'.tags.rows[k] == ts[i])
      && (forall n :: s'.TagNamed(n).Some? <==> s.TagNamed(n).Some? || Named(ts, n))
      && (forall n :: n in created <==> Named(ts, n) && s.TagNamed(n).None?)
    decreases |ts|
  {
    if ts != [] {
      var init, t := ts[..|ts| - 1], ts[|ts| - 1];
      assert DistinctNames(init);
      SeedTagsEffect(s, init);
      var (s1, c1) := SeedTags(s, init);
      forall n ensures Named(ts, n) <==> Named(init, n) || t.name == n {
        if Named(ts, n) {
          var i :| 0 <= i < |ts| && ts[i].name == n;
          if i < |init| {
            assert init[i].name == n;
          }
        }
        if Named(init, n) {
          var i :| 0 <= i < |init| && init[i].name == n;
          assert ts[i].name == n;
        }
      }
      forall i | 0 <= i < |init| ensures init[i].name != t.name {
        assert init[i] == ts[i];
      }
      if s1.TagNamed(t.name).None? {
        InsertFresh(s1.tags, t);
        forall n {
          TagNamedAfterInsert(s1, t, n);
        }
        var s2 := s1.(tags := s1.tags.Insert(t));
        forall k | k in s2.tags.rows && k !in s.tags.rows ensures exists i | 0 <= i < |ts| :: s2.tags.rows[k] == ts[i] {
          if k == s1.tags.next {
            assert s2.tags.rows[k] == ts[|ts| - 1];
          } else {
            var i :| 0 <= i < |init| && s1.tags.rows[k] == init[i];
            assert s2.tags.rows[k] == ts[i];
          }
        }
      } else {
        forall k | k in s1.tags.rows && k !in s.tags.rows ensures exists i | 0 <= i < |ts| :: s1.tags.rows[k] == ts[i] {
          var i :| 0 <= i < |init| && s1.tags.rows[k] == init[i];
          assert s1.tags.rows[k] == ts[i];
        }
      }
    }
  }

  /** When every template's name is already found, seeding changes nothing and
      reports nothing. */
  lemma {:induction false} SeedTagsWhenPresent(s: State, ts: seq<Tag>)
    requires forall i | 0 <= i < |ts| :: s.TagNamed(ts[i].name).Some?
    ensures SeedTags(s, ts) == (s, [])
    decreases |ts|
  {
    if ts != [] {
      assert forall i | 0 <= i < |ts| - 1 :: ts[..|ts| - 1][i] == ts[i];
      SeedTagsWhenPresent(s, ts[..|ts| - 1]);
      assert GetOrCreateTag(s, ts[|ts| - 1]) == (s, []);
      assert SeedTags(s, ts).1 == [] + [];
    }
  }

  /** The default templates have distinct names. */
  lemma DefaultTagNamesDistinct()
    ensures DistinctNames(DefaultTags)
  {
    assert NewClientTag[8] != VipClientTag[8];
    assert NewClientTag[0] != StaffTag[0] && NewClientTag[0] != AdminTag[0];
    assert VipClientTag[0] != StaffTag[0] && VipClientTag[0] != AdminTag[0];
    assert StaffTag[0] != AdminTag[0];
  }

  /** `criar_tags_padrao` a second time creates nothing and reports nothing. */
  lemma SeedTagsTwice(s: State)
    requires s.tags.KeysOk()
    ensures var s' := SeedTags(s, DefaultTags).0; SeedTags(s', DefaultTags) == (s', [])
  {
    DefaultTagNamesDistinct();
    SeedTagsEffect(s, DefaultTags);
    var s' := SeedTags(s, DefaultTags).0;
    forall i | 0 <= i < |DefaultTags| ensures s'.TagNamed(DefaultTags[i].name).Some? {
      assert Named(DefaultTags, DefaultTags[i].name);
    }
    SeedTagsWhenPresent(s', DefaultTags);
  }

  /** An insert of a tag whose name no tag has keeps the database valid. */
  lemma InsertTagKeepsValid(s: State, t: Tag)
    requires s.Valid() && s.TagNamed(t.name).None?
    ensures s.(tags := s.tags.Insert(t)).Valid()
  {
    InsertFresh(s.tags, t);
    var tags' := s.tags.Insert(t).rows;
    forall a, b | a in tags' && b in tags' && tags'[a].name == tags'[b].name ensures a == b {
      if a != s.tags.next && b != s.tags.next {
        assert s.tags.rows[a].name == s.tags.rows[b].name;
      }
    }
    assert GroupsOk(s.groups.rows, tags'.Keys);
    assert PairsOk(s.userTags, s.users.rows.Keys, tags'.Keys);
  }

  /** Seeding tags keeps the database valid. */
  lemma {:induction false} SeedTagsKeepsValid(s: State, ts: seq<Tag>)
    requires s.Valid()
    ensures SeedTags(s, ts).0.Valid()
    decreases |ts|
  {
    if ts != [] {
      SeedTagsKeepsValid(s, ts[..|ts| - 1]);
      var s1 := SeedTags(s, ts[..|ts| - 1]).0;
      if s1.TagNamed(ts[|ts| - 1].name).None? {
        InsertTagKeepsValid(s1, ts[|ts| - 1]);
      }
    }
  }

  /** A default group: its name, description, the name of its tag and its
      WhatsApp link. */
  datatype GroupTemplate = GroupTemplate(name: string, description: string, tagName: string, whatsapp: string)

  /** The groups `criar_grupos_padrao` makes sure exist, in its order. */
  const DefaultGroups: seq<GroupTemplate> := [
    GroupTemplate("Grupo de Boas-Vindas - Clientes Novos",
      "Bem-vindo à LouerCar! Aqui você receberá dicas e suporte inicial.",
      NewClientTag, "https://chat.whatsapp.com/exemplo-clientes-novos"),
    GroupTemplate("Grupo VIP - Benefícios Exclusivos",
      "Grupo exclusivo para clientes VIP com promoções especiais.",
      VipClientTag, "https://chat.whatsapp.com/exemplo-vip"),
    GroupTemplate("Equipe LouerCar - Funcionários",
      "Comunicação interna da equipe de funcionários.",
      StaffTag, "https://chat.whatsapp.com/exemplo-funcionarios")]

  /** The keys of the groups named `n`: group names are not unique. */
  function GroupsNamed(groups: map<Id, Group>, n: string): (ks: set<Id>)
    ensures forall k :: k in ks <==> k in groups && groups[k].name == n
  {
    set k | k in groups && groups[k].name == n
  }

  /** The group a template creates, with its tag `t`. */
  function TemplateGroup(g: GroupTemplate, t: Id): (r: Group)
    ensures r.name == g.name && r.tag == Some(t)
    ensures r.description == Some(g.description) && r.whatsapp == Some(g.whatsapp)
  {
    Group(g.name, Some(g.description), Some(t), Some(g.whatsapp))
  }

  /** One pass of the loop of `criar_grupos_padrao`: a template whose tag is
      missing is skipped (`Tag.DoesNotExist` is caught); otherwise
      `Grupo.objects.get_or_create(nome=...)` leaves the one group of that name
      alone, creates one when there is none, and raises
      `MultipleObjectsReturned`, which nothing catches, when there are several.
      `None` stands for that exception. */
  ghost function GetOrCreateGroup(s: State, g: GroupTemplate): (res: Option<(State, seq<string>)>)
  {
    match s.TagNamed(g.tagName)
    case None => Some((s, []))
    case Some(t) =>
      var named := GroupsNamed(s.groups.rows, g.name);
      if |named| > 1 then None
      else if named != {} then Some((s, []))
      else Some((s.(groups := s.groups.Insert(TemplateGroup(g, t))), [g.name]))
  }

  /** The loop of `criar_grupos_padrao` over the templates `gs`: the database it
      leaves and the names it returns, or `None` when it raised, in which case
      the groups already created stay. */
  ghost function SeedGroups(s: State, gs: seq<GroupTemplate>): (res: (State, Option<seq<string>>))
    decreases |gs|
  {
    if gs == [] then (s, Some([]))
    else
      var (s1, c1) := SeedGroups(s, gs[..|gs| - 1]);
      if c1.None? then (s1, None)
      else
        match GetOrCreateGroup(s1, gs[|gs| - 1])
        case None => (s1, None)
        case Some((s2, c2)) => (s2, Some(c1.value + c2))
  }

  /** `criar_grupos_padrao`: the default tags first, then the groups. */
  ghost function CreateDefaultGroupsSpec(s: State): (res: (State, Option<seq<string>>))
  {
    SeedGroups(SeedTags(s, DefaultTags).0, DefaultGroups)
  }

  /** Once the loop has raised, the later templates are never reached. */
  lemma {:induction false} SeedGroupsStopsAtRaise(s: State, gs: seq<GroupTemplate>, i: nat)
    requires i <= |gs| && SeedGroups(s, gs[..i]).1.None?
    ensures SeedGroups(s, gs) == SeedGroups(s, gs[..i])
    decreases |gs| - i
  {
    if i < |gs| {
      assert gs[..i + 1][..i] == gs[..i];
      assert SeedGroups(s, gs[..i + 1]) == SeedGroups(s, gs[..i]);
      SeedGroupsStopsAtRaise(s, gs, i + 1);
    } else {
      assert gs[..i] == gs;
    }
  }

  /** `criar_grupos_padrao`. */
  method CreateDefaultGroups(db: Db) returns (created: Option<seq<string>>)
    modifies db
    ensures (db.Snapshot(), created) == CreateDefaultGroupsSpec(old(db.Snapshot()))
  {
    var tagsCreated := CreateDefaultTags(db);
    created := GetOrCreateGroups(db, DefaultGroups);
  }

  /** The loop of `criar_grupos_padrao`, over any templates. */
  method GetOrCreateGroups(db: Db, gs: seq<GroupTemplate>) returns (created: Option<seq<string>>)
    modifies db
    ensures (db.Snapshot(), created) == SeedGroups(old(db.Snapshot()), gs)
  {
    ghost var s0 := db.Snapshot();
    var names: seq<string> := [];
    var i := 0;
    while i < |gs|
      invariant 0 <= i <= |gs|
      invariant (db.Snapshot(), Some(names)) == SeedGroups(s0, gs[..i])
    {
      var g := gs[i];
      assert gs[..i + 1][..i] == gs[..i];
      ghost var step := GetOrCreateGroup(db.Snapshot(), g);
      var tag := db.FindTag(g.tagName);
      if tag.Some? {
        var named := GroupsNamed(db.groups.rows, g.name);
        if |named| > 1 {
          assert SeedGroups(s0, gs[..i + 1]) == (db.Snapshot(), None);
          SeedGroupsStopsAtRaise(s0, gs, i + 1);
          return None;
        }
        if named == {} {
          db.groups := db.groups.Insert(TemplateGroup(g, tag.value));
          names := names + [g.name];
        }
      }
      assert step.Some? && db.Snapshot() == step.value.0;
      assert names == SeedGroups(s0, gs[..i + 1]).1.value by {
        if step.value.1 == [] {
          assert names + [] == names;
        }
      }
      i := i + 1;
    }
    assert gs[..|gs|] == gs;
    return Some(names);
  }

  /** No two group templates share a name. */
  predicate DistinctGroupNames(gs: seq<GroupTemplate>) {
    forall i, j | 0 <= i < j < |gs| :: gs[i].name != gs[j].name
  }

  /** Seeding creates the group named `n`: some template has that name, its
      tag exists and no group had that name. */
  ghost predicate GroupCreated(s: State, gs: seq<GroupTemplate>, n: string) {
    exists i | 0 <= i < |gs| :: gs[i].name == n && s.TagNamed(gs[i].tagName).Some? && GroupsNamed(s.groups.rows, n) == {}
  }

  /** The tag lookup reads only the tag table. */
  lemma TagNamedReadsTags(s: State, s': State, n: string)
    requires s'.tags == s.tags
    ensures s'.TagNamed(n) == s.TagNamed(n)
  {
    var keys := set t | t in s.tags.rows && s.tags.rows[t].name == n;
    var keys' := set t | t in s'.tags.rows && s'.tags.rows[t].name == n;
    assert keys == keys';
  }

  /** An insert into the group table adds its key to the groups of its name only. */
  lemma GroupsNamedAfterInsert(groups: Table<Group>, x: Group, n: string)
    requires groups.KeysOk()
    ensures groups.next !in GroupsNamed(groups.rows, n)
    ensures GroupsNamed(groups.Insert(x).rows, n) ==
      if x.name == n then GroupsNamed(groups.rows, n) + {groups.next} else GroupsNamed(groups.rows, n)
  {
    InsertFresh(groups, x);
  }

  /** One pass of the loop, when at most one group has the template's name:
      nothing raises, only the group table changes, and the template's group
      is created exactly when its tag exists and no group has its name. */
  lemma GetOrCreateGroupEffect(s: State, g: GroupTemplate)
    requires s.groups.KeysOk() && |GroupsNamed(s.groups.rows, g.name)| <= 1
    ensures GetOrCreateGroup(s, g).Some?
    ensures var (s', c) := GetOrCreateGroup(s, g).value;
      && s' == s.(groups := s'.groups) && s'.groups.KeysOk()
      && (forall k | k in s.groups.rows :: k in s'.groups.rows && s'.groups.rows[k] == s.groups.rows[k])
      && |GroupsNamed(s'.groups.rows, g.name)| ==
           (if s.TagNamed(g.tagName).Some? then 1 else |GroupsNamed(s.groups.rows, g.name)|)
      && (forall n | n != g.name :: GroupsNamed(s'.groups.rows, n) == GroupsNamed(s.groups.rows, n))
      && c == (if s.TagNamed(g.tagName).Some? && GroupsNamed(s.groups.rows, g.name) == {} then [g.name] else [])
  {
    match s.TagNamed(g.tagName)
    case None =>
    case Some(t) =>
      if GroupsNamed(s.groups.rows, g.name) == {} {
        var x := TemplateGroup(g, t);
        InsertFresh(s.groups, x);
        forall n {
          GroupsNamedAfterInsert(s.groups, x, n);
        }
      }
  }

  /** What seeding the groups does, for templates with distinct names when no
      template's name is shared by two groups: nothing raises, only the group
      table changes, existing groups keep their keys and contents, each
      template whose tag exists then has exactly one group of its name, and the
      names returned are exactly those of the groups created. */
  lemma {:induction false} SeedGroupsEffect(s: State, gs: seq<GroupTemplate>)
    requires s.groups.KeysOk() && DistinctGroupNames(gs)
    requires forall i | 0 <= i < |gs| :: |GroupsNamed(s.groups.rows, gs[i].name)| <= 1
    ensures var (s', c) := SeedGroups(s, gs);
      && c.Some?
      && s' == s.(groups := s'.groups) && s'.groups.KeysOk()
      && (forall k | k in s.groups.rows :: k in s'.groups.rows && s'.groups.rows[k] == s.groups.rows[k])
      && (forall i | 0 <= i < |gs| :: |GroupsNamed(s'.groups.rows, gs[i].name)| ==
            if s.TagNamed(gs[i].tagName).Some? then 1 else |GroupsNamed(s.groups.rows, gs[i].name)|)
      && (forall n | (forall i | 0 <= i < |gs| :: gs[i].name != n) ::
            GroupsNamed(s'.groups.rows, n) == GroupsNamed(s.groups.rows, n))
      && (forall n :: n in c.value <==> GroupCreated(s, gs, n))
    decreases |gs|
  {
    if gs != [] {
      var init, g := gs[..|gs| - 1], gs[|gs| - 1];
      assert forall i | 0 <= i < |init| :: init[i] == gs[i];
      SeedGroupsEffect(s, init);
      var (s1, c1) := SeedGroups(s, init);
      TagNamedReadsTags(s, s1, g.tagName);
      forall i | 0 <= i < |init| ensures init[i].name != g.name {
        assert init[i] == gs[i];
      }
      assert GroupsNamed(s1.groups.rows, g.name) == GroupsNamed(s.groups.rows, g.name);
      GetOrCreateGroupEffect(s1, g);
      CreatedSplits(s, gs);
    }
  }

  /** The groups created by all templates are those created by all but the
      last, and the last one's. */
  lemma CreatedSplits(s: State, gs: seq<GroupTemplate>)
    requires gs != []
    ensures forall n :: GroupCreated(s, gs, n) <==>
      GroupCreated(s, gs[..|gs| - 1], n)
      || (n == gs[|gs| - 1].name && s.TagNamed(gs[|gs| - 1].tagName).Some? && GroupsNamed(s.groups.rows, n) == {})
  {
    var init := gs[..|gs| - 1];
    forall n | GroupCreated(s, init, n) ensures GroupCreated(s, gs, n) {
      var i :| 0 <= i < |init| && init[i].name == n && s.TagNamed(init[i].tagName).Some? && GroupsNamed(s.groups.rows, n) == {};
      assert gs[i] == init[i];
    }
    forall n | GroupCreated(s, gs, n)
      ensures GroupCreated(s, init, n) || (n == gs[|gs| - 1].name && s.TagNamed(gs[|gs| - 1].tagName).Some?)
    {
      var i :| 0 <= i < |gs| && gs[i].name == n && s.TagNamed(gs[i].tagName).Some? && GroupsNamed(s.groups.rows, n) == {};
      if i < |init| {
        assert init[i] == gs[i];
      }
    }
  }

  /** When every template whose tag exists already has its one group, seeding
      the groups changes nothing and returns no name. */
  lemma {:induction false} SeedGroupsWhenPresent(s: State, gs: seq<GroupTemplate>)
    requires forall i | 0 <= i < |gs| :: s.TagNamed(gs[i].tagName).None? || |GroupsNamed(s.groups.rows, gs[i].name)| == 1
    ensures SeedGroups(s, gs) == (s, Some([]))
    decreases |gs|
  {
    if gs != [] {
      assert forall i | 0 <= i < |gs| - 1 :: gs[..|gs| - 1][i] == gs[i];
      SeedGroupsWhenPresent(s, gs[..|gs| - 1]);
      assert GetOrCreateGroup(s, gs[|gs| - 1]) == Some((s, []));
      assert SeedGroups(s, gs).1.value == [] + [];
    }
  }

  /** Seeding the groups never touches the tag table, even when it raises. */
  lemma {:induction false} SeedGroupsKeepsTags(s: State, gs: seq<GroupTemplate>)
    ensures SeedGroups(s, gs).0.tags == s.tags
    decreases |gs|
  {
    if gs != [] {
      SeedGroupsKeepsTags(s, gs[..|gs| - 1]);
    }
  }

  /** The group templates have distinct names, and the tag of each is a default tag. */
  lemma DefaultGroupsFacts()
    ensures DistinctGroupNames(DefaultGroups)
    ensures forall i | 0 <= i < |DefaultGroups| :: Named(DefaultTags, DefaultGroups[i].tagName)
  {
    assert DefaultGroups[0].name[6] != DefaultGroups[1].name[6];
    assert DefaultGroups[0].name[0] != DefaultGroups[2].name[0];
    assert DefaultGroups[1].name[0] != DefaultGroups[2].name[0];
    assert DefaultGroups[0].tagName == DefaultTags[0].name;
    assert DefaultGroups[1].tagName == DefaultTags[1].name;
    assert DefaultGroups[2].tagName == DefaultTags[2].name;
  }

  /** `criar_grupos_padrao` leaves every default tag in place, whether or not it raised. */
  lemma CreateDefaultGroupsSeedsTags(s: State, n: string)
    requires s.tags.KeysOk() && Named(DefaultTags, n)
    ensures CreateDefaultGroupsSpec(s).0.TagNamed(n).Some?
  {
    DefaultTagNamesDistinct();
    SeedTagsEffect(s, DefaultTags);
    var s1 := SeedTags(s, DefaultTags).0;
    SeedGroupsKeepsTags(s1, DefaultGroups);
    TagNamedReadsTags(s1, CreateDefaultGroupsSpec(s).0, n);
  }

  /** On a database where no default group's name is shared by two groups,
      `criar_grupos_padrao` does not raise, and a second call changes nothing
      and returns no name. */
  lemma CreateDefaultGroupsTwice(s: State)
    requires s.tags.KeysOk() && s.groups.KeysOk()
    requires forall i | 0 <= i < |DefaultGroups| :: |GroupsNamed(s.groups.rows, DefaultGroups[i].name)| <= 1
    ensures CreateDefaultGroupsSpec(s).1.Some?
    ensures var s' := CreateDefaultGroupsSpec(s).0; CreateDefaultGroupsSpec(s') == (s', Some([]))
  {
    DefaultTagNamesDistinct();
    DefaultGroupsFacts();
    SeedTagsEffect(s, DefaultTags);
    var s1 := SeedTags(s, DefaultTags).0;
    SeedGroupsEffect(s1, DefaultGroups);
    var s' := SeedGroups(s1, DefaultGroups).0;
    forall i | 0 <= i < |DefaultTags| ensures s'.TagNamed(DefaultTags[i].name).Some? {
      assert Named(DefaultTags, DefaultTags[i].name);
      TagNamedReadsTags(s1, s', DefaultTags[i].name);
    }
    SeedTagsWhenPresent(s', DefaultTags);
    forall i | 0 <= i < |DefaultGroups| ensures |GroupsNamed(s'.groups.rows, DefaultGroups[i].name)| == 1 {
      TagNamedReadsTags(s1, s', DefaultGroups[i].tagName);
    }
    SeedGroupsWhenPresent(s', DefaultGroups);
  }

  /** An insert of a group whose tag, if any, exists keeps the database valid. */
  lemma InsertGroupKeepsValid(s: State, x: Group)
    requires s.Valid() && (x.tag.Some? ==> x.tag.value in s.tags.rows)
    ensures s.(groups := s.groups.Insert(x)).Valid()
  {
    InsertFresh(s.groups, x);
    assert PairsOk(s.memberships, s.users.rows.Keys, s.groups.Insert(x).rows.Keys);
  }

  /** Seeding the groups keeps the database valid, whether or not it raises. */
  lemma {:induction false} SeedGroupsKeepsValid(s: State, gs: seq<GroupTemplate>)
    requires s.Valid()
    ensures SeedGroups(s, gs).0.Valid()
    decreases |gs|
  {
    if gs != [] {
      SeedGroupsKeepsValid(s, gs[..|gs| - 1]);
      var s1 := SeedGroups(s, gs[..|gs| - 1]).0;
      var g := gs[|gs| - 1];
      match s1.TagNamed(g.tagName)
      case None =>
      case Some(t) =>
        InsertGroupKeepsValid(s1, TemplateGroup(g, t));
    }
  }

  /** `criar_grupos_padrao` keeps the database valid. */
  lemma CreateDefaultGroupsKeepsValid(s: State)
    requires s.Valid()
    ensures CreateDefaultGroupsSpec(s).0.Valid()
  {
    SeedTagsKeepsValid(s, DefaultTags);
    SeedGroupsKeepsValid(SeedTags(s, DefaultTags).0, DefaultGroups);
  }

  /** The role tags a user's flags call for, as `atribuir_tags_automaticas`
      decides them: a superuser is an administrator, a staff user an employee,
      and a user who is neither a new client; a staff superuser is both. */
  function RoleTagsFor(user: User): (ns: set<string>)
    ensures AdminTag in ns <==> user.isSuperuser
    ensures StaffTag in ns <==> user.isStaff
    ensures NewClientTag in ns <==> !user.isStaff && !user.isSuperuser
    ensures VipClientTag !in ns
  {
    RoleNamesDiffer();
    (if user.isSuperuser then {AdminTag} else {})
    + (if user.isStaff then {StaffTag} else {})
    + (if !user.isStaff && !user.isSuperuser then {NewClientTag} else {})
  }

  /** The four role tag names are distinct. */
  lemma RoleNamesDiffer()
    ensures NewClientTag != VipClientTag && NewClientTag != StaffTag && NewClientTag != AdminTag
    ensures VipClientTag != StaffTag && VipClientTag != AdminTag && StaffTag != AdminTag
  {
    assert NewClientTag[8] != VipClientTag[8];
    assert NewClientTag[0] != StaffTag[0] && NewClientTag[0] != AdminTag[0];
    assert VipClientTag[0] != StaffTag[0] && VipClientTag[0] != AdminTag[0];
    assert StaffTag[0] != AdminTag[0];
  }

  /** One rule of `atribuir_tags_automaticas`, when it `applies`: the tag named
      `name`, if it exists, gets a UsuarioTag row for user `u` (`get_or_create`,
      so never a second one) and its name is reported; a missing tag is
      skipped. The tag lookup does not see the user-tag rows, so each rule is
      stated on the database the helper starts from. */
  ghost function Rule(s: State, u: Id, applies: bool, name: string): (res: (set<(Id, Id)>, seq<string>))
  {
    if applies && s.TagNamed(name).Some? then ({(u, s.TagNamed(name).value)}, [name]) else ({}, [])
  }

  /** `atribuir_tags_automaticas` for the saved user `u`: the administrator
      rule, then the employee rule, then the new-client rule. */
  ghost function AutoTagsSpec(s: State, u: Id): (res: (State, seq<string>))
    requires u in s.users.rows
  {
    var user := s.users.rows[u];
    var (p1, n1) := Rule(s, u, user.isSuperuser, AdminTag);
    var (p2, n2) := Rule(s, u, user.isStaff, StaffTag);
    var (p3, n3) := Rule(s, u, !user.isStaff && !user.isSuperuser, NewClientTag);
    (s.(userTags := s.userTags + p1 + p2 + p3), n1 + n2 + n3)
  }

  /** `atribuir_tags_automaticas`. */
  method AssignAutomaticTags(db: Db, u: Id) returns (given: seq<string>)
    requires u in db.users.rows
    modifies db
    ensures (db.Snapshot(), given) == AutoTagsSpec(old(db.Snapshot()), u)
  {
    ghost var s0 := db.Snapshot();
    var user := db.users.rows[u];
    ghost var r1 := Rule(s0, u, user.isSuperuser, AdminTag);
    ghost var r2 := Rule(s0, u, user.isStaff, StaffTag);
    ghost var r3 := Rule(s0, u, !user.isStaff && !user.isSuperuser, NewClientTag);
    given := [];
    if user.isSuperuser {
      var t := db.FindTag(AdminTag);
      if t.Some? {
        db.userTags := db.userTags + {(u, t.value)};
        given := given + [AdminTag];
      }
    }
    assert db.userTags == s0.userTags + r1.0 && given == r1.1;
    TagNamedReadsTags(s0, db.Snapshot(), StaffTag);
    if user.isStaff {
      var t := db.FindTag(StaffTag);
      if t.Some? {
        db.userTags := db.userTags + {(u, t.value)};
        given := given + [StaffTag];
      }
    }
    assert db.userTags == s0.userTags + r1.0 + r2.0 && given == r1.1 + r2.1;
    TagNamedReadsTags(s0, db.Snapshot(), NewClientTag);
    if !user.isStaff && !user.isSuperuser {
      var t := db.FindTag(NewClientTag);
      if t.Some? {
        db.userTags := db.userTags + {(u, t.value)};
        given := given + [NewClientTag];
      }
    }
    assert db.userTags == s0.userTags + r1.0 + r2.0 + r3.0 && given == r1.1 + r2.1 + r3.1;
  }

  /** The UsuarioTag rows the rules call for: user `u` with each existing tag
      named by `RoleTagsFor`. */
  ghost function RulePairs(s: State, u: Id): (ps: set<(Id, Id)>)
    requires u in s.users.rows
  {
    set n | n in RoleTagsFor(s.users.rows[u]) && s.TagNamed(n).Some? :: (u, s.TagNamed(n).value)
  }

  /** What `atribuir_tags_automaticas` does: only the user-tag rows change, the
      rows the rules call for are added to those there were, and the names
      returned are exactly the rules' tags that exist. */
  lemma AutoTagsEffect(s: State, u: Id)
    requires u in s.users.rows
    ensures var (s', given) := AutoTagsSpec(s, u);
      && s' == s.(userTags := s.userTags + RulePairs(s, u))
      && (forall n :: n in given <==> n in RoleTagsFor(s.users.rows[u]) && s.TagNamed(n).Some?)
  {
    var user := s.users.rows[u];
    RoleNamesDiffer();
    var p1 := Rule(s, u, user.isSuperuser, AdminTag).0;
    var p2 := Rule(s, u, user.isStaff, StaffTag).0;
    var p3 := Rule(s, u, !user.isStaff && !user.isSuperuser, NewClientTag).0;
    var pairs := RulePairs(s, u);
    forall p | p in pairs ensures p in p1 + p2 + p3 {
      var n :| n in RoleTagsFor(user) && s.TagNamed(n).Some? && p == (u, s.TagNamed(n).value);
      assert n == AdminTag || n == StaffTag || n == NewClientTag;
    }
    assert p1 + p2 + p3 <= pairs;
  }

  /** A staff superuser gets both the administrator and the employee tag when
      they exist, and never the new-client tag. */
  lemma StaffSuperuserGetsBothRoleTags(s: State, u: Id)
    requires u in s.users.rows && s.users.rows[u].isStaff && s.users.rows[u].isSuperuser
    requires s.TagNamed(AdminTag).Some? && s.TagNamed(StaffTag).Some?
    ensures var given := AutoTagsSpec(s, u).1;
      AdminTag in given && StaffTag in given && NewClientTag !in given
  {
    AutoTagsEffect(s, u);
  }

  /** Giving the automatic tags again adds no row and returns the same names: the
      names are reported whether or not `get_or_create` created the row. */
  lemma AutoTagsTwice(s: State, u: Id)
    requires u in s.users.rows
    ensures var (s', given) := AutoTagsSpec(s, u); AutoTagsSpec(s', u) == (s', given)
  {
    var s' := AutoTagsSpec(s, u).0;
    TagNamedReadsTags(s, s', AdminTag);
    TagNamedReadsTags(s, s', StaffTag);
    TagNamedReadsTags(s, s', NewClientTag);
    var user := s.users.rows[u];
    assert s'.users.rows[u] == user;
    var r1, r2, r3 := Rule(s, u, user.isSuperuser, AdminTag), Rule(s, u, user.isStaff, StaffTag),
      Rule(s, u, !user.isStaff && !user.isSuperuser, NewClientTag);
    assert Rule(s', u, user.isSuperuser, AdminTag) == r1;
    assert Rule(s', u, user.isStaff, StaffTag) == r2;
    assert Rule(s', u, !user.isStaff && !user.isSuperuser, NewClientTag) == r3;
    assert s'.userTags + r1.0 + r2.0 + r3.0 == s'.userTags;
  }

  /** Giving the automatic tags to an existing user keeps the database valid. */
  lemma AutoTagsKeepsValid(s: State, u: Id)
    requires s.Valid() && u in s.users.rows
    ensures AutoTagsSpec(s, u).0.Valid()
  {
    AutoTagsEffect(s, u);
    forall p | p in RulePairs(s, u) ensures p.0 in s.users.rows && p.1 in s.tags.rows {
      var n :| n in RoleTagsFor(s.users.rows[u]) && s.TagNamed(n).Some? && p == (u, s.TagNamed(n).value);
    }
  }

  /** The names `atualizar_tags_por_funcao` treats as role tags. */
  const RoleTagNames: set<string> := {NewClientTag, VipClientTag, StaffTag, AdminTag}

  /** The UsuarioTag rows of user `u` whose tag has a role name: what
      `filter(usuario=u, tag__nome__in=...)` selects. */
  function RolePairs(s: State, u: Id): (ps: set<(Id, Id)>)
    ensures forall p :: p in ps <==>
      p in s.userTags && p.0 == u && p.1 in s.tags.rows && s.tags.rows[p.1].name in RoleTagNames
  {
    set p | p in s.userTags && p.0 == u && p.1 in s.tags.rows && s.tags.rows[p.1].name in RoleTagNames
  }

  /** `atualizar_tags_por_funcao`: the user's role-tag rows are deleted, then the
      automatic tags are given again. */
  ghost function UpdateRoleTagsSpec(s: State, u: Id): (res: (State, seq<string>))
    requires u in s.users.rows
  {
    AutoTagsSpec(s.(userTags := s.userTags - RolePairs(s, u)), u)
  }

  /** `atualizar_tags_por_funcao`. */
  method UpdateRoleTags(db: Db, u: Id) returns (given: seq<string>)
    requires u in db.users.rows
    modifies db
    ensures (db.Snapshot(), given) == UpdateRoleTagsSpec(old(db.Snapshot()), u)
  {
    db.userTags := db.userTags - RolePairs(db.Snapshot(), u);
    given := AssignAutomaticTags(db, u);
  }

  /** The tag found by a name has that name. */
  lemma RulePairsAreRoleTags(s: State, u: Id)
    requires u in s.users.rows
    ensures forall p | p in RulePairs(s, u) :: p.0 == u && p.1 in s.tags.rows && s.tags.rows[p.1].name in RoleTagNames
  {
    forall p | p in RulePairs(s, u) ensures p.0 == u && p.1 in s.tags.rows && s.tags.rows[p.1].name in RoleTagNames {
      var n :| n in RoleTagsFor(s.users.rows[u]) && s.TagNamed(n).Some? && p == (u, s.TagNamed(n).value);
      assert n in RoleTagNames;
    }
  }

  /** What the re-sync does: every row that is not one of the user's role-tag
      rows is kept, so other users' tags and the user's other tags stay; and,
      with the tag names unique, the user then holds a role tag exactly when
      the rules call for it on the current flags. */
  lemma UpdateRoleTagsEffect(s: State, u: Id)
    requires u in s.users.rows && TagsOk(s.tags.rows)
    ensures var s' := UpdateRoleTagsSpec(s, u).0;
      && s' == s.(userTags := s'.userTags)
      && (forall p | p in s.userTags && p !in RolePairs(s, u) :: p in s'.userTags)
      && (forall p | p in s'.userTags && p.0 != u :: p in s.userTags)
      && (forall t | t in s.tags.rows && s.tags.rows[t].name in RoleTagNames ::
            (u, t) in s'.userTags <==> s.tags.rows[t].name in RoleTagsFor(s.users.rows[u]))
  {
    var s1 := s.(userTags := s.userTags - RolePairs(s, u));
    AutoTagsEffect(s1, u);
    TagNamedReadsTags(s, s1, AdminTag);
    forall n {
      TagNamedReadsTags(s, s1, n);
    }
    var s' := UpdateRoleTagsSpec(s, u).0;
    forall t | t in s.tags.rows && s.tags.rows[t].name in RoleTagNames
      ensures (u, t) in s'.userTags <==> s.tags.rows[t].name in RoleTagsFor(s.users.rows[u])
    {
      var n := s.tags.rows[t].name;
      TagNamedUnique(s, n, t);
      if (u, t) in RulePairs(s1, u) {
        var m :| m in RoleTagsFor(s.users.rows[u]) && s1.TagNamed(m).Some? && (u, t) == (u, s1.TagNamed(m).value);
      }
      if n in RoleTagsFor(s.users.rows[u]) {
        assert (u, t) in RulePairs(s1, u);
      }
    }
    RulePairsAreRoleTags(s1, u);
  }

  /** Re-syncing twice is re-syncing once. */
  lemma UpdateRoleTagsIdempotent(s: State, u: Id)
    requires u in s.users.rows
    ensures var r := UpdateRoleTagsSpec(s, u); UpdateRoleTagsSpec(r.0, u) == r
  {
    var s1 := s.(userTags := s.userTags - RolePairs(s, u));
    AutoTagsEffect(s1, u);
    var s' := UpdateRoleTagsSpec(s, u).0;
    RulePairsAreRoleTags(s1, u);
    assert RolePairs(s', u) == RulePairs(s1, u);
    var s2 := s'.(userTags := s'.userTags - RolePairs(s', u));
    assert s2 == s1;
  }

  /** Re-syncing the role tags of an existing user keeps the database valid. */
  lemma UpdateRoleTagsKeepsValid(s: State, u: Id)
    requires s.Valid() && u in s.users.rows
    ensures UpdateRoleTagsSpec(s, u).0.Valid()
  {
    var s1 := s.(userTags := s.userTags - RolePairs(s, u));
    assert s1.Valid();
    AutoTagsKeepsValid(s1, u);
  }

  /** The groups whose tag is one of `ts`: every `Grupo.objects.filter(tag=tag)`
      for `tag` in `ts`, together. */
  function GroupsTaggedIn(groups: map<Id, Group>, ts: set<Id>): (gs: set<Id>)
    ensures forall g :: g in gs <==> g in groups && groups[g].tag.Some? && groups[g].tag.value in ts
  {
    set g | g in groups && groups[g].tag.Some? && groups[g].tag.value in ts
  }

  /** Each group has one tag, so the groups of disjoint tag sets are disjoint. */
  lemma GroupsTaggedInAddOne(groups: map<Id, Group>, ts: set<Id>, t: Id)
    requires t !in ts
    ensures GroupsTaggedIn(groups, ts) * GroupsTaggedIn(groups, {t}) == {}
    ensures GroupsTaggedIn(groups, ts + {t}) == GroupsTaggedIn(groups, ts) + GroupsTaggedIn(groups, {t})
  {
  }

  /** Membership rows for two sets of groups. */
  lemma JoinsUnion(u: Id, a: set<Id>, b: set<Id>)
    ensures Joins(u, a) + Joins(u, b) == Joins(u, a + b)
  {
  }

  /** The UsuarioGrupo rows that make `u` a member of each group of `gs`. */
  function Joins(u: Id, gs: set<Id>): (ps: set<(Id, Id)>)
    ensures forall p :: p in ps <==> p.0 == u && p.1 in gs
  {
    set g | g in gs :: (u, g)
  }

  /** `adicionar_usuario_em_grupo_automatico`: `u` becomes a member of every group
      tagged with one of its tags; memberships it already had are kept once. */
  function AutoGroupsSpec(s: State, u: Id): (s': State)
  {
    s.(memberships := s.memberships + Joins(u, GroupsTaggedIn(s.groups.rows, s.TagsOf(u))))
  }

  /** The groups the call joins for the first time, whose names it returns. */
  function AutoGroupsNew(s: State, u: Id): (gs: set<Id>)
  {
    set g | g in GroupsTaggedIn(s.groups.rows, s.TagsOf(u)) && (u, g) !in s.memberships
  }

  /** `added` are the names of the distinct groups `ids`, in order. */
  predicate NamesOf(added: seq<string>, ids: seq<Id>, groups: map<Id, Group>) {
    && |ids| == |added|
    && (forall i | 0 <= i < |ids| :: ids[i] in groups && added[i] == groups[ids[i]].name)
    && (forall i, j | 0 <= i < j < |ids| :: ids[i] != ids[j])
  }

  /** Names of two disjoint runs of groups, one after the other. */
  lemma NamesOfAppend(a: seq<string>, ia: seq<Id>, b: seq<string>, ib: seq<Id>, groups: map<Id, Group>)
    requires NamesOf(a, ia, groups) && NamesOf(b, ib, groups)
    requires forall i, j | 0 <= i < |ia| && 0 <= j < |ib| :: ia[i] != ib[j]
    ensures NamesOf(a + b, ia + ib, groups)
  {
    var s, ids := a + b, ia + ib;
    forall i, j | 0 <= i < j < |ids| ensures ids[i] != ids[j] {
      if j < |ia| {
        assert ids[i] == ia[i] && ids[j] == ia[j];
      } else if i >= |ia| {
        assert ids[i] == ib[i - |ia|] && ids[j] == ib[j - |ia|];
      } else {
        assert ids[i] == ia[i] && ids[j] == ib[j - |ia|];
      }
    }
    forall i | 0 <= i < |ids| ensures ids[i] in groups && s[i] == groups[ids[i]].name {
      if i < |ia| {
        assert ids[i] == ia[i] && s[i] == a[i];
      } else {
        assert ids[i] == ib[i - |ia|] && s[i] == b[i - |ia|];
      }
    }
  }

  /** `members'` is `members` with `u` joined to every group of `gs`, and
      `added` names, via `ids`, exactly the groups of `gs` `u` was not yet in. */
  ghost predicate Joined(members: set<(Id, Id)>, members': set<(Id, Id)>, added: seq<string>, ids: seq<Id>,
                   groups: map<Id, Group>, u: Id, gs: set<Id>) {
    && members' == members + Joins(u, gs)
    && NamesOf(added, ids, groups)
    && (forall g :: g in ids <==> g in gs && (u, g) !in members)
  }

  /** Joining disjoint sets of groups one after the other. */
  lemma JoinedAppend(m0: set<(Id, Id)>, m1: set<(Id, Id)>, m2: set<(Id, Id)>, a1: seq<string>, i1: seq<Id>,
                     a2: seq<string>, i2: seq<Id>, groups: map<Id, Group>, u: Id, g1: set<Id>, g2: set<Id>)
    requires Joined(m0, m1, a1, i1, groups, u, g1) && Joined(m1, m2, a2, i2, groups, u, g2)
    requires g1 * g2 == {}
    ensures Joined(m0, m2, a1 + a2, i1 + i2, groups, u, g1 + g2)
  {
    JoinsUnion(u, g1, g2);
    forall i, j | 0 <= i < |i1| && 0 <= j < |i2| ensures i1[i] != i2[j] {
      assert i1[i] in i1 && i2[j] in i2;
    }
    NamesOfAppend(a1, i1, a2, i2, groups);
    forall g ensures g in i1 + i2 <==> g in g1 + g2 && (u, g) !in m0 {
      assert g in i1 + i2 <==> g in i1 || g in i2;
    }
  }

  /** Moving one element from the part still to do to the part done. */
  lemma MoveOne(whole: set<Id>, todo: set<Id>, done: set<Id>, x: Id)
    requires todo + done == whole && todo * done == {} && x in todo
    ensures (todo - {x}) + (done + {x}) == whole && (todo - {x}) * (done + {x}) == {}
    ensures x !in done && |todo - {x}| < |todo|
  {
    assert x in done ==> x in todo * done;
    assert todo == (todo - {x}) + {x};
  }

  /** `get_or_create` of one membership. */
  method JoinOneGroup(members: set<(Id, Id)>, groups: map<Id, Group>, u: Id, g: Id)
    returns (members': set<(Id, Id)>, added: seq<string>, ghost ids: seq<Id>)
    requires g in groups
    ensures Joined(members, members', added, ids, groups, u, {g})
  {
    assert Joins(u, {g}) == {(u, g)};
    if (u, g) !in members {
      members', added, ids := members + {(u, g)}, [groups[g].name], [g];
    } else {
      members', added, ids := members, [], [];
    }
  }

  /** The inner loop of `adicionar_usuario_em_grupo_automatico`: `get_or_create`
      of a membership of `u` in each group of `gs`, collecting the names of the
      groups joined for the first time. */
  method JoinGroups(members: set<(Id, Id)>, groups: map<Id, Group>, u: Id, gs: set<Id>)
    returns (members': set<(Id, Id)>, added: seq<string>, ghost ids: seq<Id>)
    requires gs <= groups.Keys
    ensures Joined(members, members', added, ids, groups, u, gs)
  {
    var todo := gs;
    ghost var seen: set<Id> := {};
    members', added, ids := members, [], [];
    while todo != {}
      invariant todo + seen == gs && todo * seen == {}
      invariant Joined(members, members', added, ids, groups, u, seen)
      decreases |todo|
    {
      var g :| g in todo;
      MoveOne(gs, todo, seen, g);
      var m, more;
      ghost var moreIds;
      m, more, moreIds := JoinOneGroup(members', groups, u, g);
      JoinedAppend(members, members', m, added, ids, more, moreIds, groups, u, seen, {g});
      members', added, ids := m, added + more, ids + moreIds;
      todo, seen := todo - {g}, seen + {g};
    }
  }

  /** The outer loop of `adicionar_usuario_em_grupo_automatico`: for each tag
      of `tags`, the inner loop over the groups with that tag. */
  method JoinTaggedGroups(members: set<(Id, Id)>, groups: map<Id, Group>, u: Id, tags: set<Id>)
    returns (members': set<(Id, Id)>, added: seq<string>, ghost ids: seq<Id>)
    ensures Joined(members, members', added, ids, groups, u, GroupsTaggedIn(groups, tags))
  {
    var todo := tags;
    ghost var done: set<Id> := {};
    members', added, ids := members, [], [];
    while todo != {}
      invariant todo + done == tags && todo * done == {}
      invariant Joined(members, members', added, ids, groups, u, GroupsTaggedIn(groups, done))
      decreases |todo|
    {
      var t :| t in todo;
      MoveOne(tags, todo, done, t);
      GroupsTaggedInAddOne(groups, done, t);
      var m, more;
      ghost var moreIds;
      m, more, moreIds := JoinGroups(members', groups, u, GroupsTaggedIn(groups, {t}));
      JoinedAppend(members, members', m, added, ids, more, moreIds, groups, u, GroupsTaggedIn(groups, done), GroupsTaggedIn(groups, {t}));
      members', added, ids := m, added + more, ids + moreIds;
      todo, done := todo - {t}, done + {t};
    }
    assert done == tags;
  }

  /** `adicionar_usuario_em_grupo_automatico`: `ids` are the groups behind the
      returned names, each group newly joined, once. */
  method AddUserToAutomaticGroups(db: Db, u: Id) returns (added: seq<string>, ghost ids: seq<Id>)
    modifies db
    ensures db.Snapshot() == AutoGroupsSpec(old(db.Snapshot()), u)
    ensures NamesOf(added, ids, old(db.groups.rows))
    ensures forall g :: g in ids <==> g in AutoGroupsNew(old(db.Snapshot()), u)
  {
    var members;
    members, added, ids := JoinTaggedGroups(db.memberships, db.groups.rows, u, db.Snapshot().TagsOf(u));
    db.memberships := members;
  }

  /** What the call does, seen from the user: the groups they belong to afterwards
      are those they belonged to plus the groups `get_grupos_visiveis` shows them. */
  lemma AutoGroupsJoinsVisible(s: State, u: Id)
    ensures AutoGroupsSpec(s, u).GroupsJoined(u) == s.GroupsJoined(u) + VisibleGroups(s, u)
    ensures AutoGroupsNew(s, u) == VisibleGroups(s, u) - s.GroupsJoined(u)
    ensures forall p | p in AutoGroupsSpec(s, u).memberships && p.0 != u :: p in s.memberships
  {
    forall g ensures g in GroupsTaggedIn(s.groups.rows, s.TagsOf(u)) <==> g in VisibleGroups(s, u) {
      VisibleGroupsExactly(s, u, g);
    }
  }

  /** A second call joins nothing new and returns no name. */
  lemma AutoGroupsTwice(s: State, u: Id)
    ensures AutoGroupsSpec(AutoGroupsSpec(s, u), u) == AutoGroupsSpec(s, u)
    ensures AutoGroupsNew(AutoGroupsSpec(s, u), u) == {}
  {
    var s' := AutoGroupsSpec(s, u);
    assert s'.TagsOf(u) == s.TagsOf(u);
    assert GroupsTaggedIn(s'.groups.rows, s'.TagsOf(u)) == GroupsTaggedIn(s.groups.rows, s.TagsOf(u));
  }

  /** Joining the groups of an existing user's tags keeps the database valid. */
  lemma AutoGroupsKeepsValid(s: State, u: Id)
    requires s.Valid() && u in s.users.rows
    ensures AutoGroupsSpec(s, u).Valid()
  {
    var s' := AutoGroupsSpec(s, u);
    assert PairsOk(s'.memberships, s'.users.rows.Keys, s'.groups.rows.Keys);
  }
}
