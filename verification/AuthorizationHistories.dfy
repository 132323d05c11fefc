/** Organizations, members and roles change: what reconciliation makes of a store that holds the objects of
    earlier times. */
module AuthorizationHistories {
  import opened Wrappers
  import opened Rbac
  import opened Authorization
  import opened AuthorizationRuns
  import opened AuthorizationTable
  import opened AuthorizationClashes

  /** Reconciliations, each with the world as it was at the time. */
  type History = seq<(World, Event)>

  function Past(history: History): Store {
    if history == [] then map[]
    else
      var (world, e) := history[|history| - 1];
      ApplyWrites(Past(history[..|history| - 1]), WritesOf(world, e))
  }

  /** The users that have been reconciled. */
  ghost predicate Reconciled(history: History, user: string) {
    exists i :: 0 <= i < |history| && history[i].1 == OfReadyUser(user)
  }

  /** No user that was reconciled earlier has a name that clashes with the organization's. */
  ghost predicate NeverClashed(history: History, o: Organization) {
    forall user, suffix :: Reconciled(history, user) ==> !ClashAt(o, user, suffix)
  }

  // ---------- where the contents of the store come from ----------

  ghost predicate Allows(users: iset<string>, e: Event) {
    e.OfReadyUser? ==> e.user in users
  }

  ghost predicate RulesSeen(users: iset<string>, k: Key, rules: seq<PolicyRule>) {
    rules == [] || exists world, e :: Allows(users, e) && RulesFrom(world, e, k, rules)
  }

  ghost predicate BindingSeen(users: iset<string>, k: Key, ref: Option<RoleRef>) {
    exists world, e :: Allows(users, e) && BindingFrom(world, e, k, ref)
  }

  /** The rules of every role and the role of every binding are those of a reconciliation of some time. */
  ghost predicate Remembered(users: iset<string>, store: Store) {
    forall k :: k in store ==>
      && (k.ClusterRole? || k.Role? ==> RulesSeen(users, k, store[k].rules))
      && (k.ClusterRoleBinding? || k.RoleBinding? ==> BindingSeen(users, k, store[k].roleRef))
  }

  lemma MemberBindingsHaveRoles(world: World, e: Event, k: Key)
    requires k in WritesOf(world, e) && k.RoleBinding?
    ensures WritesOf(world, e)[k].roleRef.Some?
  {
    KindOfKey(world, e, k);
    hide Dockyards, Join, ClusterWrites, OrganizationWrites, UserWrites;
  }

  lemma WritingRemembers(users: iset<string>, store: Store, world: World, e: Event)
    requires Remembered(users, store) && Allows(users, e)
    ensures Remembered(users, ApplyWrites(store, WritesOf(world, e)))
  {
    hide WritesOf, Allows;
    var after, w := ApplyWrites(store, WritesOf(world, e)), WritesOf(world, e);
    forall k | k in after
      ensures k.ClusterRole? || k.Role? ==> RulesSeen(users, k, after[k].rules)
      ensures k.ClusterRoleBinding? || k.RoleBinding? ==> BindingSeen(users, k, after[k].roleRef)
    {
      if k in w {
        if k.ClusterRoleBinding? || k.RoleBinding? {
          if k.ClusterRoleBinding? {
            BindingsHaveRoles(world, e, k);
          } else {
            MemberBindingsHaveRoles(world, e, k);
          }
          assert BindingFrom(world, e, k, after[k].roleRef);
        } else if w[k].rules.Some? {
          assert RulesFrom(world, e, k, after[k].rules);
        }
      }
    }
  }

  lemma {:induction false} PastIsRemembered(users: iset<string>, history: History)
    requires forall user :: Reconciled(history, user) ==> user in users
    ensures Remembered(users, Past(history))
  {
    hide WritesOf, Remembered;
    if history != [] {
      var n := |history| - 1;
      forall user | Reconciled(history[..n], user) ensures user in users {
        var i :| 0 <= i < n && history[..n][i].1 == OfReadyUser(user);
        assert history[i].1 == OfReadyUser(user);
      }
      PastIsRemembered(users, history[..n]);
      assert Allows(users, history[n].1) by {
        if history[n].1.OfReadyUser? {
          assert Reconciled(history, history[n].1.user);
        }
      }
      WritingRemembers(users, Past(history[..n]), history[n].0, history[n].1);
    } else {
      NothingRemembered(users);
    }
  }

  lemma NothingRemembered(users: iset<string>)
    ensures Remembered(users, map[])
  {
  }

  lemma {:induction false} RunIsRemembered(users: iset<string>, store: Store, world: World, events: seq<Event>)
    requires Remembered(users, store) && Schedule(world, events) && forall user :: user in world.users ==> user in users
    ensures Remembered(users, Run(world, store, events))
  {
    hide WritesOf, Remembered;
    if events != [] {
      var n := |events| - 1;
      RunIsRemembered(users, store, world, events[..n]);
      assert Occurs(world, events[n]);
      WritingRemembers(users, Run(world, store, events[..n]), world, events[n]);
    }
  }

  // ---------- what the last schedule has written ----------

  /** Rules, references and subjects that the world writes are in the store as written, whatever it held. */
  ghost predicate UpToDate(world: World, store: Store, e: Event) {
    forall k :: k in WritesOf(world, e) ==>
      && k in store
      && (WritesOf(world, e)[k].rules.Some? ==> store[k].rules == WritesOf(world, e)[k].rules.value)
      && (WritesOf(world, e)[k].roleRef.Some? ==> store[k].roleRef == WritesOf(world, e)[k].roleRef)
      && (WritesOf(world, e)[k].subjects.Some? ==> store[k].subjects == WritesOf(world, e)[k].subjects.value)
  }

  lemma CoveringUpdates(world: World, store: Store, events: seq<Event>, e: Event)
    requires WellFormed(world) && !Collides(world) && Covers(world, events) && Occurs(world, e)
    ensures UpToDate(world, Run(world, store, events), e)
  {
    hide WritesOf, WellFormed, Collides, Occurs;
    var merged := Merged(world, events);
    RunIsMerged(world, store, events);
    forall k | k in WritesOf(world, e) ensures k in merged && merged[k] == WritesOf(world, e)[k] {
      MergedFrom(world, events, k);
      var f :| f in events && k in WritesOf(world, f) && merged[k] == WritesOf(world, f)[k];
      EventsApart(world, e, f, k);
    }
  }

  // ---------- who may do what to an organization ----------

  function Plural(suffix: string): string {
    suffix + "s"
  }

  lemma BindingRefers(world: World, o: Organization, plural: string)
    requires o.namespace.Some? && plural in BINDING_SUFFIXES
    ensures var k, w := ClusterRoleBinding(OfOrganization(o.name, plural)), OrganizationWrites(world, o);
      k in w && exists s :: s in ROLE_SUFFIXES && Plural(s) == plural
                            && w[k].roleRef == Some(RoleRef("", ToClusterRole, OfOrganization(o.name, s)))
  {
    assert Plural("super-user") == "super-users" && Plural("reader") == "readers" && Plural("other") == "others";
    OrganizationWritesAt(world, o);
    hide OfOrganization, OrganizationWrites, InNamespace, AsSubjects, SuperUsers, Plural, SuperUserRules, ReaderRules,
         OtherRules;
  }

  lemma OrganizationRefersAs(world: World, o: Organization, k: Key, ref: RoleRef, suffix: string)
    requires k.ClusterRoleBinding? && BindingFrom(world, OfOrg(o), k, Some(ref))
    requires suffix in ROLE_SUFFIXES && ref.name == OfOrganization(o.name, suffix)
    ensures k == ClusterRoleBinding(OfOrganization(o.name, Plural(suffix)))
  {
    OrganizationKeys(world, o, k);
    SuffixesApart(o.name);
    assert WritesOf(world, OfOrg(o)) == OrganizationWrites(world, o);
    hide OfOrganization, OrganizationWrites, WritesOf, Plural;
    var plural :| plural in BINDING_SUFFIXES && k.name == OfOrganization(o.name, plural);
    BindingRefers(world, o, plural);
  }

  lemma SuffixesApart(name: string)
    ensures OfOrganization(name, "super-user") != OfOrganization(name, "reader")
    ensures OfOrganization(name, "super-user") != OfOrganization(name, "other")
    ensures OfOrganization(name, "reader") != OfOrganization(name, "other")
  {
    assert |OfOrganization(name, "super-user")| == |name| + 21;
    assert |OfOrganization(name, "reader")| == |name| + 17;
    assert |OfOrganization(name, "other")| == |name| + 16;
  }

  /** Only roles named after an organization say anything about it. */
  lemma OnlyItsRoles(world: World, e: Event, k: Key, rules: seq<PolicyRule>, req: Request)
    requires RulesFrom(world, e, k, rules) && req.resource == "organizations" && AnyRule(rules, req)
    requires k.ClusterRole? || k.Role?
    ensures k.ClusterRole? && exists s :: s in ROLE_SUFFIXES && k.name == OfOrganization(req.name, s)
  {
    hide OfOrganization, OfUser, Dockyards, Join;
    match e
    case OfCluster =>
      ReaderRuleAllows(req);
      UserRuleAllows(req);
      SuperUserRuleAllows(req);
    case OfOrg(o) => OrganizationRules(world, o, k, rules, req);
    case OfMember(m) => MemberRules(world, m, k, rules, req);
    case OfReadyUser(v) =>
  }

  /** Each rule of an organization's roles names the organization and nothing else. */
  lemma RulesNameIt(world: World, o: Organization, k: Key, rules: seq<PolicyRule>)
    requires RulesFrom(world, OfOrg(o), k, rules)
    ensures k.ClusterRole? && |rules| == 1 && rules[0].resourceNames == [o.name]
  {
    hide OfOrganization, InNamespace, AsSubjects, SuperUsers;
  }

  lemma OrganizationRules(world: World, o: Organization, k: Key, rules: seq<PolicyRule>, req: Request)
    requires RulesFrom(world, OfOrg(o), k, rules) && req.resource == "organizations" && AnyRule(rules, req)
    ensures k.ClusterRole? && exists s :: s in ROLE_SUFFIXES && k.name == OfOrganization(req.name, s)
  {
    RulesNameIt(world, o, k, rules);
    OrganizationKeys(world, o, k);
    assert WritesOf(world, OfOrg(o)) == OrganizationWrites(world, o);
    hide OfOrganization, OrganizationWrites, WritesOf, Matches;
    assert rules == [rules[0]];
  }

  lemma MemberRules(world: World, m: Member, k: Key, rules: seq<PolicyRule>, req: Request)
    requires RulesFrom(world, OfMember(m), k, rules) && req.resource == "organizations"
    ensures !AnyRule(rules, req)
  {
    hide Dockyards, Join;
    assert rules == SelfRules(m.name);
  }

  lemma MemberRefers(world: World, m: Member, k: Key, ref: RoleRef)
    requires k.RoleBinding? && BindingFrom(world, OfMember(m), k, Some(ref))
    ensures ref.kind == ToRole || exists tier :: ':' !in tier && ref.name == Dockyards(tier)
  {
    hide Dockyards, Join;
    assert ':' !in "reader" && ':' !in "user" && ':' !in "super-user";
  }

  /** A binding in a namespace never refers to a role of an organization. */
  lemma NamespacedReferElsewhere(world: World, e: Event, k: Key, ref: RoleRef, name: string, suffix: string)
    requires k.RoleBinding? && BindingFrom(world, e, k, Some(ref))
    ensures ref.kind == ToClusterRole ==> ref.name != OfOrganization(name, suffix)
  {
    KindOfKey(world, e, k);
    assert e.OfMember?;
    MemberRefers(world, e.m, k, ref);
    hide WritesOf;
    if ref.kind == ToClusterRole && ref.name == OfOrganization(name, suffix) {
      var tier :| ':' !in tier && ref.name == Dockyards(tier);
      DockyardsInjective(tier, Join(name, suffix));
      JoinHasColon(name, suffix);
    }
  }

  /** A cluster-wide binding to a role of an organization is that organization's. */
  lemma ClusterWideReferHere(world: World, e: Event, k: Key, ref: RoleRef, o: Organization, suffix: string)
    requires k.ClusterRoleBinding? && BindingFrom(world, e, k, Some(ref))
    requires o.namespace.Some? && suffix in ROLE_SUFFIXES && ref.name == OfOrganization(o.name, suffix)
    requires e.OfReadyUser? ==> !ClashAt(o, e.user, suffix)
    ensures k == ClusterRoleBinding(OfOrganization(o.name, Plural(suffix)))
  {
    hide WritesOf, Plural;
    match e
    case OfCluster =>
      WritesOfCluster(world);
      ClusterKeys(k);
    case OfMember(m) =>
      WritesOfMember(world, m);
      MemberKeys(m, k);
    case OfReadyUser(v) =>
      UserRefers(world, v, k, ref);
      DockyardsInjective(Join("user", v), Join(o.name, suffix));
    case OfOrg(p) =>
      var s := OrganizationRefers(world, p, k, ref);
      DockyardsInjective(Join(p.name, s), Join(o.name, suffix));
      SuffixesHaveNoColon(s);
      SuffixesHaveNoColon(suffix);
      JoinSplit(p.name, s, o.name, suffix);
      OrganizationRefersAs(world, p, k, ref, s);
  }

  /** So whatever lets anyone do something to an organization is one of its own bindings to the role of the
      same suffix. */
  lemma GrantIsItsOwn(users: iset<string>, store: Store, o: Organization, b: Key, user: string, req: Request)
    returns (suffix: string)
    requires Remembered(users, store) && Grants(store, b, user, GROUPS, req)
    requires b.ClusterRoleBinding? || b.RoleBinding?
    requires req.resource == "organizations" && req.name == o.name && o.namespace.Some?
    requires forall v, s :: v in users ==> !ClashAt(o, v, s)
    ensures suffix in ROLE_SUFFIXES && b == ClusterRoleBinding(OfOrganization(o.name, Plural(suffix)))
    ensures store[b].roleRef.Some? && store[b].roleRef.value.name == OfOrganization(o.name, suffix)
    ensures store[b].roleRef.value.kind == ToClusterRole
    ensures ClusterRole(OfOrganization(o.name, suffix)) in store
    ensures AnyRule(store[ClusterRole(OfOrganization(o.name, suffix))].rules, req)
  {
    hide WritesOf, OfOrganization, ClashAt, RuleAllows, AnySubject, Plural;
    var world, e :| Allows(users, e) && BindingFrom(world, e, b, store[b].roleRef);
    var ref := store[b].roleRef.value;
    var role := if ref.kind == ToClusterRole then ClusterRole(ref.name) else Role(req.namespace, ref.name);
    var world', f :| Allows(users, f) && RulesFrom(world', f, role, store[role].rules);
    OnlyItsRoles(world', f, role, store[role].rules, req);
    suffix :| suffix in ROLE_SUFFIXES && role.name == OfOrganization(req.name, suffix);
    if b.RoleBinding? {
      NamespacedReferElsewhere(world, e, b, ref, o.name, suffix);
    } else {
      ClusterWideReferHere(world, e, b, ref, o, suffix);
    }
  }

  /** What one of its own bindings grants, in a store that is up to date. */
  lemma ItsBinding(world: World, store: Store, o: Organization, suffix: string, rule: PolicyRule,
                   subjects: seq<Subject>, user: string, req: Request)
    requires UpToDate(world, store, OfOrg(o))
    requires var role := ClusterRole(OfOrganization(o.name, suffix));
      var binding := ClusterRoleBinding(OfOrganization(o.name, Plural(suffix)));
      var w := OrganizationWrites(world, o);
      && role in w && w[role].rules == Some([rule])
      && binding in w && w[binding].subjects == Some(subjects)
      && w[binding].roleRef == Some(RoleRef("", ToClusterRole, role.name))
    ensures Grants(store, ClusterRoleBinding(OfOrganization(o.name, Plural(suffix))), user, GROUPS, req)
       <==> AnySubject(subjects, user, GROUPS) && RuleAllows(rule, req)
  {
    hide OfOrganization, OrganizationWrites, RuleAllows, AnySubject, Plural;
    OneRule(rule, req);
  }

  lemma ReadersGrantNow(world: World, store: Store, o: Organization, user: string, req: Request)
    requires UpToDate(world, store, OfOrg(o)) && o.namespace.Some?
    requires req.resource == "organizations" && req.apiGroup == GROUP && req.name == o.name
    ensures Grants(store, ClusterRoleBinding(OfOrganization(o.name, Plural("reader"))), user, GROUPS, req) <==>
      req.verb in READ_VERBS && HasMember(world, o, user)
  {
    assert Plural("reader") == "readers";
    var members, rule := InNamespace(world.members, o.namespace.value), ReaderRules(o.name)[0];
    hide UpToDate, AnySubject, InNamespace, AsSubjects, SuperUsers, Grants, OfOrganization, OrganizationWrites,
         RuleAllows, Plural;
    NamedRuleAllows(["get", "list", "watch"], "organizations", [o.name], req);
    OrganizationWritesAt(world, o);
    ItsBinding(world, store, o, "reader", rule, AsSubjects(members), user, req);
    SubjectsAreMembers(members, user);
    forall m ensures m in members <==> m in world.members && m.namespace == o.namespace.value {
      InNamespaceMembers(world.members, o.namespace.value, m);
    }
  }

  lemma SuperUsersGrantNow(world: World, store: Store, o: Organization, user: string, req: Request)
    requires UpToDate(world, store, OfOrg(o)) && o.namespace.Some?
    requires req.resource == "organizations" && req.apiGroup == GROUP && req.name == o.name
    ensures Grants(store, ClusterRoleBinding(OfOrganization(o.name, Plural("super-user"))), user, GROUPS, req) <==>
      req.verb in {"delete", "patch", "update"} && HasSuperUser(world, o, user)
  {
    assert Plural("super-user") == "super-users";
    var members, rule := InNamespace(world.members, o.namespace.value), SuperUserRules(o.name)[0];
    hide UpToDate, AnySubject, InNamespace, AsSubjects, SuperUsers, Grants, OfOrganization, OrganizationWrites,
         RuleAllows, Plural;
    NamedRuleAllows(["delete", "patch", "update"], "organizations", [o.name], req);
    OrganizationWritesAt(world, o);
    ItsBinding(world, store, o, "super-user", rule, AsSubjects(SuperUsers(members)), user, req);
    SubjectsAreMembers(SuperUsers(members), user);
    forall m
      ensures m in SuperUsers(members) <==>
        m in world.members && m.namespace == o.namespace.value && m.role == SuperUser
    {
      InNamespaceMembers(world.members, o.namespace.value, m);
      SuperUsersMembers(members, m);
    }
  }

  lemma OthersGrantNow(world: World, store: Store, o: Organization, user: string, req: Request)
    requires UpToDate(world, store, OfOrg(o)) && o.namespace.Some? && req.resource == "organizations"
    ensures !Grants(store, ClusterRoleBinding(OfOrganization(o.name, Plural("other"))), user, GROUPS, req)
  {
    assert Plural("other") == "others";
    var rule := OtherRules(o.name)[0];
    hide UpToDate, AnySubject, InNamespace, AsSubjects, SuperUsers, Grants, OfOrganization, OrganizationWrites,
         RuleAllows, Plural;
    NamedRuleAllows(["delete", "patch"], "invitations", [o.name], req);
    OrganizationWritesAt(world, o);
    ItsBinding(world, store, o, "other", rule, [Subject.Group(RBAC_GROUP, AUTHENTICATED)], user, req);
  }

  ghost predicate HasMember(world: World, o: Organization, user: string)
    requires o.namespace.Some?
  {
    exists m :: m in world.members && m.namespace == o.namespace.value && m.user == user
  }

  ghost predicate HasSuperUser(world: World, o: Organization, user: string)
    requires o.namespace.Some?
  {
    exists m :: m in world.members && m.namespace == o.namespace.value && m.user == user && m.role == SuperUser
  }

  lemma OnlyItsBindings(users: iset<string>, store: Store, o: Organization, user: string, req: Request)
    requires Remembered(users, store) && req.resource == "organizations" && req.name == o.name && o.namespace.Some?
    requires forall v, s :: v in users ==> !ClashAt(o, v, s)
    ensures Allowed(store, user, GROUPS, req) <==>
      || Grants(store, ClusterRoleBinding(OfOrganization(o.name, Plural("reader"))), user, GROUPS, req)
      || Grants(store, ClusterRoleBinding(OfOrganization(o.name, Plural("super-user"))), user, GROUPS, req)
      || Grants(store, ClusterRoleBinding(OfOrganization(o.name, Plural("other"))), user, GROUPS, req)
  {
    hide Remembered, ClashAt, Grants, OfOrganization, Plural;
    forall b: Key | (b.ClusterRoleBinding? || b.RoleBinding?) && Grants(store, b, user, GROUPS, req)
      ensures exists s :: s in ROLE_SUFFIXES && b == ClusterRoleBinding(OfOrganization(o.name, Plural(s)))
    {
      var s := GrantIsItsOwn(users, store, o, b, user, req);
    }
  }

  /** However organizations, members and users have come, gone and changed, and whatever was reconciled on the
      way: once everything there is now has been reconciled, an organization can be read by exactly its
      members of now, and changed by exactly its super users of now. */
  lemma OrganizationRightsFollow(history: History, world: World, events: seq<Event>, o: Organization, user: string,
                                 verb: string, namespace: string)
    requires WellFormed(world) && !Collides(world) && Covers(world, events)
    requires o in world.organizations && o.namespace.Some? && NeverClashed(history, o)
    ensures var store := Run(world, Past(history), events);
      Allowed(store, user, GROUPS, Request(verb, GROUP, "organizations", o.name, namespace)) <==>
      || (verb in READ_VERBS && HasMember(world, o, user))
      || (verb in {"delete", "patch", "update"} && HasSuperUser(world, o, user))
  {
    var users := iset v | v in world.users || Reconciled(history, v);
    var store, req := Run(world, Past(history), events), Request(verb, GROUP, "organizations", o.name, namespace);
    forall v, s | v in users ensures !ClashAt(o, v, s) {
      if v in world.users {
        assert ClashAt(o, v, s) ==> Collides(world);
      }
    }
    PastIsRemembered(users, history);
    RunIsRemembered(users, Past(history), world, events);
    CoveringUpdates(world, Past(history), events, OfOrg(o));
    hide Allowed, Run, Past, UpToDate, Remembered, ClashAt, Collides, WellFormed, Covers, Grants, HasMember,
         HasSuperUser, OfOrganization, Plural;
    OnlyItsBindings(users, store, o, user, req);
    ReadersGrantNow(world, store, o, user, req);
    SuperUsersGrantNow(world, store, o, user, req);
    OthersGrantNow(world, store, o, user, req);
  }
}
