/** What the reconciled objects allow: a direct table of rights, and the proof that the RBAC authorizer
    decides exactly as the table says. */
module AuthorizationTable {
  import opened Wrappers
  import opened Rbac
  import opened Authorization
  import opened AuthorizationRuns

  /** The groups that IsSubjectAllowed supplies for every subject. */
  const GROUPS: set<string> := {AUTHENTICATED}

  // ---------- the table ----------

  const READ_VERBS: set<string> := {"get", "list", "watch"}
  const NAMESPACED: set<string> := {"clusters", "dnszones", "invitations", "members", "nodepools", "nodes", "workloads"}
  const WRITABLE: set<string> := {"clusters", "nodepools", "nodes", "workloads"}

  predicate ReaderMay(verb: string, resource: string) {
    verb in READ_VERBS && resource in NAMESPACED
  }

  predicate UserMay(verb: string, resource: string) {
    || ReaderMay(verb, resource)
    || (verb in {"create", "delete", "patch", "update"} && resource in WRITABLE)
  }

  predicate SuperUserMay(verb: string, resource: string) {
    || UserMay(verb, resource)
    || (verb in {"create", "delete"} && resource == "invitations")
    || (verb in {"delete", "patch", "update"} && resource == "members")
  }

  predicate RoleMay(role: MemberRole, verb: string, resource: string) {
    match role
    case Reader => ReaderMay(verb, resource)
    case RegularUser => UserMay(verb, resource)
    case SuperUser => SuperUserMay(verb, resource)
  }

  function Rank(role: MemberRole): nat {
    match role
    case Reader => 0
    case RegularUser => 1
    case SuperUser => 2
  }

  /** Every member can take itself out, by its own name or as `@me`. */
  predicate MayLeave(m: Member, req: Request) {
    req.verb == "delete" && req.resource == "members" && req.name in {"@me", m.name}
  }

  ghost predicate NamespaceRight(world: World, user: string, req: Request) {
    req.namespace != "" && exists m :: m in world.members && m.namespace == req.namespace && m.user == user
                             && (RoleMay(m.role, req.verb, req.resource) || MayLeave(m, req))
  }

  ghost predicate OrganizationRight(world: World, user: string, req: Request) {
    && req.resource == "organizations"
    && exists o, m :: o in world.organizations && o.namespace.Some? && o.name == req.name
         && m in world.members && m.namespace == o.namespace.value && m.user == user
         && (req.verb in READ_VERBS || (m.role == SuperUser && req.verb in {"delete", "patch", "update"}))
  }

  /** Any subject, in any namespace, on invitations that are named after an organization. */
  ghost predicate InvitationRight(world: World, req: Request) {
    && req.resource == "invitations"
    && req.verb in {"delete", "patch"}
    && exists o :: o in world.organizations && o.namespace.Some? && o.name == req.name
  }

  predicate OwnRight(world: World, user: string, req: Request) {
    && req.resource == "users"
    && req.verb in {"delete", "get", "patch", "update"}
    && req.name == user
    && user in world.users
  }

  ghost predicate Permitted(world: World, user: string, req: Request) {
    && req.apiGroup == "dockyards.io"
    && (|| NamespaceRight(world, user, req)
        || OrganizationRight(world, user, req)
        || InvitationRight(world, req)
        || OwnRight(world, user, req))
  }

  // ---------- the settled store ----------

  ghost predicate Covers(world: World, events: seq<Event>) {
    Schedule(world, events) && forall e :: Occurs(world, e) ==> e in events
  }

  ghost predicate Wrote(world: World, store: Store, e: Event) {
    forall k :: k in WritesOf(world, e) ==> k in store && store[k] == Apply(WritesOf(world, e)[k], EMPTY)
  }

  ghost predicate Settled(world: World, store: Store) {
    && (forall e :: Occurs(world, e) ==> Wrote(world, store, e))
    && (forall k :: k in store ==> exists e :: Occurs(world, e) && k in WritesOf(world, e))
  }

  lemma CoveringSettles(world: World, events: seq<Event>)
    requires WellFormed(world) && !Collides(world) && Covers(world, events)
    ensures Settled(world, Run(world, map[], events))
  {
    hide WritesOf, WellFormed, Collides, Occurs, Apply;
    var merged, store := Merged(world, events), Run(world, map[], events);
    RunIsMerged(world, map[], events);
    forall e | Occurs(world, e) ensures Wrote(world, store, e) {
      forall k | k in WritesOf(world, e) ensures k in store && store[k] == Apply(WritesOf(world, e)[k], EMPTY) {
        MergedFrom(world, events, k);
        var f :| f in events && k in WritesOf(world, f) && merged[k] == WritesOf(world, f)[k];
        EventsApart(world, e, f, k);
      }
    }
    forall k | k in store ensures exists e :: Occurs(world, e) && k in WritesOf(world, e) {
      MergedFrom(world, events, k);
    }
  }

  lemma RoleRules(world: World, store: Store, e: Event, k: Key, rules: seq<PolicyRule>)
    requires Settled(world, store) && Occurs(world, e) && k in WritesOf(world, e)
    requires WritesOf(world, e)[k].rules == Some(rules)
    ensures Lookup(store, k).rules == rules
  {
    hide WritesOf, Occurs;
    assert Wrote(world, store, e);
  }

  lemma BindingContent(world: World, store: Store, e: Event, k: Key, ref: RoleRef, subjects: seq<Subject>)
    requires Settled(world, store) && Occurs(world, e) && k in WritesOf(world, e)
    requires WritesOf(world, e)[k].roleRef == Some(ref) && WritesOf(world, e)[k].subjects == Some(subjects)
    ensures k in store && store[k].roleRef == Some(ref) && store[k].subjects == subjects
  {
    hide WritesOf, Occurs;
    assert Wrote(world, store, e);
  }

  // ---------- subjects ----------

  lemma {:induction false} InNamespaceMembers(members: seq<Member>, namespace: string, m: Member)
    ensures m in InNamespace(members, namespace) <==> m in members && m.namespace == namespace
  {
    if members != [] {
      var n := |members| - 1;
      InNamespaceMembers(members[..n], namespace, m);
      assert members == members[..n] + [members[n]];
    }
  }

  lemma {:induction false} SuperUsersMembers(members: seq<Member>, m: Member)
    ensures m in SuperUsers(members) <==> m in members && m.role == SuperUser
  {
    if members != [] {
      var n := |members| - 1;
      SuperUsersMembers(members[..n], m);
      assert members == members[..n] + [members[n]];
    }
  }

  lemma SubjectsAreMembers(members: seq<Member>, user: string)
    ensures AnySubject(AsSubjects(members), user, GROUPS) <==> exists m :: m in members && m.user == user
  {
    var subjects := AsSubjects(members);
    if s :| s in subjects && SubjectMatches(s, user, GROUPS) {
      var i :| 0 <= i < |subjects| && subjects[i] == s;
      assert members[i].user == user;
    }
    if m :| m in members && m.user == user {
      var i :| 0 <= i < |members| && members[i] == m;
      assert subjects[i] in subjects && SubjectMatches(subjects[i], user, GROUPS);
    }
  }

  lemma OneSubject(s: Subject, user: string)
    ensures AnySubject([s], user, GROUPS) <==> SubjectMatches(s, user, GROUPS)
  {
    assert s in [s];
  }

  lemma OneRule(rule: PolicyRule, req: Request)
    ensures AnyRule([rule], req) <==> RuleAllows(rule, req)
  {
    assert rule in [rule];
  }

  lemma NamedRuleAllows(verbs: seq<string>, resource: string, names: seq<string>, req: Request)
    requires "*" !in verbs && resource != "*" && names != []
    ensures RuleAllows(NamedRule(verbs, resource, names), req)
       <==> req.verb in verbs && req.apiGroup == GROUP && req.resource == resource && req.name in names
  {
  }

  // ---------- what each binding grants ----------

  lemma OrganizationBinding(world: World, store: Store, o: Organization, suffix: string, plural: string,
                            rule: PolicyRule, subjects: seq<Subject>, user: string, req: Request)
    requires Settled(world, store) && o in world.organizations
    requires var role, binding := ClusterRole(OfOrganization(o.name, suffix)),
      ClusterRoleBinding(OfOrganization(o.name, plural));
      var w := OrganizationWrites(world, o);
      && role in w && w[role].rules == Some([rule])
      && binding in w && w[binding].subjects == Some(subjects)
      && w[binding].roleRef == Some(RoleRef("", ToClusterRole, role.name))
    ensures Grants(store, ClusterRoleBinding(OfOrganization(o.name, plural)), user, GROUPS, req)
       <==> AnySubject(subjects, user, GROUPS) && RuleAllows(rule, req)
  {
    var role, binding := ClusterRole(OfOrganization(o.name, suffix)),
      ClusterRoleBinding(OfOrganization(o.name, plural));
    hide OfOrganization, OrganizationWrites, Settled, RuleAllows, AnySubject, Apply;
    RoleRules(world, store, OfOrg(o), role, [rule]);
    BindingContent(world, store, OfOrg(o), binding, RoleRef("", ToClusterRole, role.name), subjects);
    OneRule(rule, req);
  }

  /** The six objects of an organization, as written. */
  lemma OrganizationWritesAt(world: World, o: Organization)
    requires o.namespace.Some?
    ensures var w, n := OrganizationWrites(world, o), o.name;
      var members := InNamespace(world.members, o.namespace.value);
      && (var r, b := ClusterRole(OfOrganization(n, "super-user")),
          ClusterRoleBinding(OfOrganization(n, "super-users"));
          && r in w && w[r].rules == Some(SuperUserRules(n)) && b in w
             && w[b].subjects == Some(AsSubjects(SuperUsers(members)))
          && w[b].roleRef == Some(RoleRef("", ToClusterRole, r.name)))
      && (var r, b := ClusterRole(OfOrganization(n, "reader")), ClusterRoleBinding(OfOrganization(n, "readers"));
          && r in w && w[r].rules == Some(ReaderRules(n)) && b in w && w[b].subjects == Some(AsSubjects(members))
          && w[b].roleRef == Some(RoleRef("", ToClusterRole, r.name)))
      && (var r, b := ClusterRole(OfOrganization(n, "other")), ClusterRoleBinding(OfOrganization(n, "others"));
          && r in w && w[r].rules == Some(OtherRules(n)) && b in w
             && w[b].subjects == Some([Subject.Group(RBAC_GROUP, AUTHENTICATED)])
          && w[b].roleRef == Some(RoleRef("", ToClusterRole, r.name)))
  {
    OrganizationWritesApart(o, InNamespace(world.members, o.namespace.value));
    hide OfOrganization, InNamespace, AsSubjects, SuperUsers, SuperUserRules, ReaderRules, OtherRules;
  }

  lemma ReadersGrant(world: World, store: Store, o: Organization, user: string, req: Request)
    requires Settled(world, store) && o in world.organizations && o.namespace.Some?
    ensures Grants(store, ClusterRoleBinding(OfOrganization(o.name, "readers")), user, GROUPS, req)
       <==> && (exists m :: m in world.members && m.namespace == o.namespace.value && m.user == user)
            && req.verb in READ_VERBS && req.apiGroup == GROUP && req.resource == "organizations" && req.name == o.name
  {
    hide Settled, AnySubject, InNamespace, AsSubjects, Grants, OfOrganization, OrganizationWrites, RuleAllows;
    var members, rule := InNamespace(world.members, o.namespace.value), ReaderRules(o.name)[0];
    NamedRuleAllows(["get", "list", "watch"], "organizations", [o.name], req);
    OrganizationWritesAt(world, o);
    OrganizationBinding(world, store, o, "reader", "readers", rule, AsSubjects(members), user, req);
    SubjectsAreMembers(members, user);
    forall m ensures m in members <==> m in world.members && m.namespace == o.namespace.value {
      InNamespaceMembers(world.members, o.namespace.value, m);
    }
  }

  lemma SuperUsersGrant(world: World, store: Store, o: Organization, user: string, req: Request)
    requires Settled(world, store) && o in world.organizations && o.namespace.Some?
    ensures Grants(store, ClusterRoleBinding(OfOrganization(o.name, "super-users")), user, GROUPS, req)
       <==> && (exists m :: && m in world.members && m.namespace == o.namespace.value && m.user == user
                            && m.role == SuperUser)
            && req.verb in {"delete", "patch", "update"} && req.apiGroup == GROUP
            && req.resource == "organizations" && req.name == o.name
  {
    hide Settled, AnySubject, InNamespace, AsSubjects, SuperUsers, Grants, OfOrganization, OrganizationWrites,
         RuleAllows;
    var members, rule := InNamespace(world.members, o.namespace.value), SuperUserRules(o.name)[0];
    NamedRuleAllows(["delete", "patch", "update"], "organizations", [o.name], req);
    OrganizationWritesAt(world, o);
    OrganizationBinding(world, store, o, "super-user", "super-users", rule, AsSubjects(SuperUsers(members)), user, req);
    SubjectsAreMembers(SuperUsers(members), user);
    forall m
      ensures m in SuperUsers(members) <==>
        m in world.members && m.namespace == o.namespace.value && m.role == SuperUser
    {
      InNamespaceMembers(world.members, o.namespace.value, m);
      SuperUsersMembers(members, m);
    }
  }

  lemma OthersGrant(world: World, store: Store, o: Organization, user: string, req: Request)
    requires Settled(world, store) && o in world.organizations && o.namespace.Some?
    ensures Grants(store, ClusterRoleBinding(OfOrganization(o.name, "others")), user, GROUPS, req)
       <==> && req.verb in {"delete", "patch"} && req.apiGroup == GROUP
            && req.resource == "invitations" && req.name == o.name
  {
    hide Settled, AnySubject, Grants, OfOrganization, OrganizationWrites, RuleAllows;
    var rule := OtherRules(o.name)[0];
    NamedRuleAllows(["delete", "patch"], "invitations", [o.name], req);
    OrganizationWritesAt(world, o);
    OrganizationBinding(world, store, o, "other", "others", rule, [Subject.Group(RBAC_GROUP, AUTHENTICATED)], user,
                        req);
    OneSubject(Subject.Group(RBAC_GROUP, AUTHENTICATED), user);
  }

  lemma UserWritesAt(user: string)
    ensures var w, r, b := UserWrites(user), ClusterRole(OfUser(user)), ClusterRoleBinding(OfUser(user));
      && r in w && w[r].rules == Some(UserRules(user)) && b in w
         && w[b].subjects == Some([Subject.User(RBAC_GROUP, user)])
      && w[b].roleRef == Some(RoleRef(RBAC_GROUP, ToClusterRole, r.name))
  {
    hide OfUser;
  }

  lemma OwnGrant(world: World, store: Store, name: string, user: string, req: Request)
    requires Settled(world, store) && name in world.users
    ensures Grants(store, ClusterRoleBinding(OfUser(name)), user, GROUPS, req)
       <==> && user == name && req.verb in {"delete", "get", "patch", "update"} && req.apiGroup == GROUP
            && req.resource == "users" && req.name == name
  {
    UserWritesAt(name);
    hide OfUser, UserWrites, Settled, AnySubject, AnyRule, RuleAllows;
    var e, rule := OfReadyUser(name), UserRules(name)[0];
    NamedRuleAllows(["delete", "get", "patch", "update"], "users", [name], req);
    RoleRules(world, store, e, ClusterRole(OfUser(name)), [rule]);
    BindingContent(world, store, e, ClusterRoleBinding(OfUser(name)),
                   RoleRef(RBAC_GROUP, ToClusterRole, OfUser(name)), [Subject.User(RBAC_GROUP, name)]);
    OneRule(rule, req);
    OneSubject(Subject.User(RBAC_GROUP, name), user);
  }

  lemma ReaderRuleAllows(req: Request)
    ensures AnyRule(ReaderTier(), req) <==> req.apiGroup == GROUP && ReaderMay(req.verb, req.resource)
  {
    OneRule(ReaderTier()[0], req);
    hide AnyRule;
  }

  lemma UserRuleAllows(req: Request)
    ensures AnyRule(UserTier(), req) <==>
      req.apiGroup == GROUP && req.verb in {"create", "delete", "patch", "update"} && req.resource in WRITABLE
  {
    OneRule(UserTier()[0], req);
    hide AnyRule;
  }

  lemma SuperUserRuleAllows(req: Request)
    ensures AnyRule(SuperUserTier(), req) <==>
      && req.apiGroup == GROUP
      && (|| (req.verb in {"create", "delete"} && req.resource == "invitations")
          || (req.verb in {"delete", "patch", "update"} && req.resource == "members"))
  {
    var tier := SuperUserTier();
    assert AnyRule(tier, req) <==> RuleAllows(tier[0], req) || RuleAllows(tier[1], req) by {
      assert tier[0] in tier && tier[1] in tier;
    }
    hide AnyRule;
  }

  lemma FixedRoles(world: World, store: Store)
    requires Settled(world, store)
    ensures Lookup(store, ClusterRole(Dockyards("reader"))).rules == ReaderTier()
    ensures Lookup(store, ClusterRole(Dockyards("user"))).rules == UserTier()
    ensures Lookup(store, ClusterRole(Dockyards("super-user"))).rules == SuperUserTier()
  {
    FixedNamesApart();
    hide Dockyards, Settled, ReaderTier, UserTier, SuperUserTier;
    RoleRules(world, store, OfCluster, ClusterRole(Dockyards("reader")), ReaderTier());
    RoleRules(world, store, OfCluster, ClusterRole(Dockyards("user")), UserTier());
    RoleRules(world, store, OfCluster, ClusterRole(Dockyards("super-user")), SuperUserTier());
  }

  predicate HasTier(role: MemberRole, tier: string) {
    match tier
    case "reader" => true
    case "user" => role != Reader
    case _ => role == SuperUser
  }

  lemma MemberWritesAt(m: Member, tier: string)
    requires tier in {"reader", "user", "super-user"}
    ensures var w, b := MemberWrites(m), RoleBinding(m.namespace, Join(m.name, tier));
      && (b in w <==> HasTier(m.role, tier))
      && (b in w ==> w[b] == MemberBinding(m, ToClusterRole, Dockyards(tier)))
    ensures var w, self := MemberWrites(m), Join(m.name, "self");
      && Role(m.namespace, self) in w && w[Role(m.namespace, self)].rules == Some(SelfRules(m.name))
      && RoleBinding(m.namespace, self) in w && w[RoleBinding(m.namespace, self)] == MemberBinding(m, ToRole, self)
  {
    MemberNamesApart(m);
    assert Join(m.name, "self") != Join(m.name, tier);
    assert |Join(m.name, tier)| == |m.name| + 1 + |tier|;
    assert |Join(m.name, "reader")| == |m.name| + 7 && |Join(m.name, "user")| == |m.name| + 5
      && |Join(m.name, "super-user")| == |m.name| + 11;
    hide Join, MemberBinding, SelfRules;
  }

  lemma TierGrants(world: World, store: Store, m: Member, tier: string, user: string, req: Request)
    requires Settled(world, store) && m in world.members && req.namespace == m.namespace
    requires tier in {"reader", "user", "super-user"} && HasTier(m.role, tier)
    ensures Grants(store, RoleBinding(m.namespace, Join(m.name, tier)), user, GROUPS, req)
       <==> m.user == user && AnyRule(Lookup(store, ClusterRole(Dockyards(tier))).rules, req)
  {
    MemberWritesAt(m, tier);
    OneSubject(Subject.User(RBAC_GROUP, m.user), user);
    hide MemberWrites, Settled, AnySubject, AnyRule, Join, Dockyards;
    BindingContent(world, store, OfMember(m), RoleBinding(m.namespace, Join(m.name, tier)),
                   RoleRef(RBAC_GROUP, ToClusterRole, Dockyards(tier)), [Subject.User(RBAC_GROUP, m.user)]);
  }

  lemma SelfGrants(world: World, store: Store, m: Member, user: string, req: Request)
    requires Settled(world, store) && m in world.members && req.namespace == m.namespace
    ensures Grants(store, RoleBinding(m.namespace, Join(m.name, "self")), user, GROUPS, req)
       <==> m.user == user && req.apiGroup == GROUP && MayLeave(m, req)
  {
    hide MemberWrites, Settled, AnySubject, AnyRule, Join, RuleAllows;
    MemberWritesAt(m, "reader");
    OneSubject(Subject.User(RBAC_GROUP, m.user), user);
    OneRule(SelfRules(m.name)[0], req);
    NamedRuleAllows(["delete"], "members", ["@me", m.name], req);
    var self := Join(m.name, "self");
    RoleRules(world, store, OfMember(m), Role(m.namespace, self), SelfRules(m.name));
    BindingContent(world, store, OfMember(m), RoleBinding(m.namespace, self),
                   RoleRef(RBAC_GROUP, ToRole, self), [Subject.User(RBAC_GROUP, m.user)]);
  }

  /** All that one member's bindings grant. */
  ghost predicate MemberGrants(store: Store, m: Member, user: string, req: Request) {
    exists s :: s in {"self", "reader", "user", "super-user"} && HasTierOrSelf(m.role, s)
      && Grants(store, RoleBinding(m.namespace, Join(m.name, s)), user, GROUPS, req)
  }

  predicate HasTierOrSelf(role: MemberRole, s: string) {
    s == "self" || HasTier(role, s)
  }

  lemma MemberGrantsTable(world: World, store: Store, m: Member, user: string, req: Request)
    requires Settled(world, store) && m in world.members && req.namespace == m.namespace
    ensures MemberGrants(store, m, user, req)
       <==> m.user == user && req.apiGroup == GROUP && (RoleMay(m.role, req.verb, req.resource) || MayLeave(m, req))
  {
    hide Settled, AnyRule, Grants, MemberGrants, Join, Dockyards, ReaderTier, UserTier, SuperUserTier, MayLeave;
    FixedRoles(world, store);
    ReaderRuleAllows(req);
    UserRuleAllows(req);
    SuperUserRuleAllows(req);
    SelfGrants(world, store, m, user, req);
    TierGrants(world, store, m, "reader", user, req);
    if m.role != Reader {
      TierGrants(world, store, m, "user", user, req);
    }
    if m.role == SuperUser {
      TierGrants(world, store, m, "super-user", user, req);
    }
    MemberGrantsByTier(store, m, user, req);
  }

  ghost predicate GrantsAs(store: Store, m: Member, s: string, user: string, req: Request) {
    Grants(store, RoleBinding(m.namespace, Join(m.name, s)), user, GROUPS, req)
  }

  lemma MemberGrantsByTier(store: Store, m: Member, user: string, req: Request)
    ensures MemberGrants(store, m, user, req) <==>
      || GrantsAs(store, m, "self", user, req)
      || GrantsAs(store, m, "reader", user, req)
      || (m.role != Reader && GrantsAs(store, m, "user", user, req))
      || (m.role == SuperUser && GrantsAs(store, m, "super-user", user, req))
  {
    hide Grants, Join;
  }

  // ---------- all bindings together ----------

  lemma RoleBindingOwner(world: World, store: Store, namespace: string, name: string)
    requires Settled(world, store) && RoleBinding(namespace, name) in store
    ensures exists m, s :: m in world.members && m.namespace == namespace && BindingName(m, s, name)
  {
    hide ClusterWrites, OrganizationWrites, MemberWrites, UserWrites, BindingName;
    var k := RoleBinding(namespace, name);
    var e :| Occurs(world, e) && k in WritesOf(world, e);
    hide Settled;
    KindOfKey(world, e, k);
    MemberBindingName(e.m, k);
  }

  ghost predicate BindingName(m: Member, s: string, name: string) {
    s in {"self", "reader", "user", "super-user"} && HasTierOrSelf(m.role, s) && name == Join(m.name, s)
  }

  lemma MemberBindingName(m: Member, k: Key)
    requires k in MemberWrites(m) && k.RoleBinding?
    ensures k.namespace == m.namespace && exists s :: BindingName(m, s, k.name)
  {
    hide Join, MemberBinding, RolePatch;
    if k.name == Join(m.name, "self") {
      assert BindingName(m, "self", k.name);
    } else if k.name == Join(m.name, "reader") {
      assert BindingName(m, "reader", k.name);
    } else if k.name == Join(m.name, "user") && m.role != Reader {
      assert BindingName(m, "user", k.name);
    } else {
      assert BindingName(m, "super-user", k.name);
    }
  }

  lemma NamespaceGrants(world: World, store: Store, user: string, req: Request)
    requires Settled(world, store) && req.namespace != ""
    ensures (exists name :: Grants(store, RoleBinding(req.namespace, name), user, GROUPS, req))
       <==> req.apiGroup == GROUP && NamespaceRight(world, user, req)
  {
    hide Settled, AnySubject, AnyRule, Join, RoleMay, MayLeave;
    if name :| Grants(store, RoleBinding(req.namespace, name), user, GROUPS, req) {
      RoleBindingOwner(world, store, req.namespace, name);
      var m, s :| m in world.members && m.namespace == req.namespace && BindingName(m, s, name);
      assert MemberGrants(store, m, user, req);
      MemberGrantsTable(world, store, m, user, req);
    }
    if req.apiGroup == GROUP && NamespaceRight(world, user, req) {
      var m :| m in world.members && m.namespace == req.namespace && m.user == user
        && (RoleMay(m.role, req.verb, req.resource) || MayLeave(m, req));
      MemberGrantsTable(world, store, m, user, req);
    }
  }

  lemma ClusterRoleBindingOwner(world: World, store: Store, name: string)
    requires Settled(world, store) && ClusterRoleBinding(name) in store
    ensures || (exists o, s :: && o in world.organizations && o.namespace.Some? && s in BINDING_SUFFIXES
                                && name == OfOrganization(o.name, s))
            || (exists u :: u in world.users && name == OfUser(u))
  {
    hide WritesOf, OfOrganization, OfUser, Wrote;
    var k := ClusterRoleBinding(name);
    var e :| Occurs(world, e) && k in WritesOf(world, e);
    hide Settled;
    ClusterRoleBindingWriter(world, e, k);
  }

  lemma ClusterRoleBindingWriter(world: World, e: Event, k: Key)
    requires k in WritesOf(world, e) && k.ClusterRoleBinding?
    ensures e.OfOrg? || e.OfReadyUser?
    ensures e.OfOrg? ==> e.o.namespace.Some? && exists s ::
      s in BINDING_SUFFIXES && k.name == OfOrganization(e.o.name, s)
    ensures e.OfReadyUser? ==> k.name == OfUser(e.user)
  {
    hide ClusterWrites, OrganizationWrites, MemberWrites, OfOrganization, OfUser;
    match e
    case OfCluster => ClusterKeys(k);
    case OfOrg(o) => OrganizationKeys(world, o, k);
    case OfMember(m) => MemberKeys(m, k);
    case OfReadyUser(u) =>
  }

  lemma OrganizationGrants(world: World, store: Store, o: Organization, s: string, user: string, req: Request)
    requires Settled(world, store) && o in world.organizations && o.namespace.Some? && s in BINDING_SUFFIXES
    requires Grants(store, ClusterRoleBinding(OfOrganization(o.name, s)), user, GROUPS, req)
    ensures req.apiGroup == GROUP && (OrganizationRight(world, user, req) || InvitationRight(world, req))
  {
    hide Settled, Grants, OfOrganization;
    if s == "readers" {
      ReadersGrant(world, store, o, user, req);
    } else if s == "super-users" {
      SuperUsersGrant(world, store, o, user, req);
    } else {
      OthersGrant(world, store, o, user, req);
    }
  }

  lemma ClusterGrants(world: World, store: Store, user: string, req: Request)
    requires Settled(world, store)
    ensures (exists name :: Grants(store, ClusterRoleBinding(name), user, GROUPS, req))
       <==> req.apiGroup == GROUP && (OrganizationRight(world, user, req) || InvitationRight(world, req)
                                      || OwnRight(world, user, req))
  {
    hide Settled, AnySubject, AnyRule, OfOrganization, OfUser;
    if name :| Grants(store, ClusterRoleBinding(name), user, GROUPS, req) {
      ClusterRoleBindingOwner(world, store, name);
      if o, s :| o in world.organizations && o.namespace.Some? && s in BINDING_SUFFIXES
                 && name == OfOrganization(o.name, s) {
        OrganizationGrants(world, store, o, s, user, req);
      } else {
        var u :| u in world.users && name == OfUser(u);
        OwnGrant(world, store, u, user, req);
      }
    }
    if req.apiGroup == GROUP && (OrganizationRight(world, user, req) || InvitationRight(world, req)
                                 || OwnRight(world, user, req)) {
      RightsGranted(world, store, user, req);
    }
  }

  lemma RightsGranted(world: World, store: Store, user: string, req: Request)
    requires Settled(world, store) && req.apiGroup == GROUP
    requires OrganizationRight(world, user, req) || InvitationRight(world, req) || OwnRight(world, user, req)
    ensures exists name :: Grants(store, ClusterRoleBinding(name), user, GROUPS, req)
  {
    hide Settled, Grants, OfOrganization, OfUser;
    if OrganizationRight(world, user, req) {
      var o, m :| o in world.organizations && o.namespace.Some? && o.name == req.name
        && m in world.members && m.namespace == o.namespace.value && m.user == user
        && (req.verb in READ_VERBS || (m.role == SuperUser && req.verb in {"delete", "patch", "update"}));
      ReadersGrant(world, store, o, user, req);
      SuperUsersGrant(world, store, o, user, req);
    } else if InvitationRight(world, req) {
      var o :| o in world.organizations && o.namespace.Some? && o.name == req.name;
      OthersGrant(world, store, o, user, req);
    } else {
      OwnGrant(world, store, user, user, req);
    }
  }

  /** However the organizations, members and users were reconciled, once each has been, the authorizer
      allows a request if and only if the table permits it. */
  lemma AuthorizerAgreesWithTable(world: World, events: seq<Event>, user: string, req: Request)
    requires WellFormed(world) && !Collides(world) && Covers(world, events)
    ensures Allowed(Run(world, map[], events), user, GROUPS, req) <==> Permitted(world, user, req)
  {
    hide Run, Grants, WellFormed, Collides, Covers, Settled, NamespaceRight, OrganizationRight, InvitationRight,
         OwnRight;
    var store := Run(world, map[], events);
    CoveringSettles(world, events);
    ClusterGrants(world, store, user, req);
    if req.namespace != "" {
      NamespaceGrants(world, store, user, req);
    } else {
      NoNamespaceNoRight(world, user, req);
    }
  }

  lemma NoNamespaceNoRight(world: World, user: string, req: Request)
    requires req.namespace == ""
    ensures !NamespaceRight(world, user, req)
  {
  }

  // ---------- owners, labels and the aggregate ----------

  /** Owner, by API version, kind, name and UID, and label of what an organization, a member or a user gets,
      the selector of the aggregated role, and the group of all subjects. */
  ghost predicate Belongs(e: Event, k: Key, object_: Object) {
    (forall s :: s in object_.subjects ==> s.apiGroup == "rbac.authorization.k8s.io") &&
    match e
    case OfCluster =>
      k == ClusterRole("dockyards:authenticated") ==>
        object_.aggregation == [map["rbac.dockyards.io/aggregate-to-authenticated" := "true"]]
    case OfOrg(o) =>
      && object_.owners == [OwnerReference("dockyards.io/v1alpha3", "Organization", o.name, o.uid)]
      && object_.labels == map["dockyards.io/organization-name" := o.name]
    case OfMember(m) =>
      && object_.owners == [OwnerReference("dockyards.io/v1alpha3", "Member", m.name, m.uid)]
      && object_.labels == map["dockyards.io/member-name" := m.name]
    case OfReadyUser(user) =>
      object_.owners == [] && object_.labels == map["dockyards.io/user-name" := user]
  }

  lemma WritesBelong(world: World, e: Event, k: Key)
    requires k in WritesOf(world, e)
    ensures Belongs(e, k, Apply(WritesOf(world, e)[k], EMPTY))
  {
    match e
    case OfCluster => AggregateBelongs(k);
    case OfOrg(o) => OrganizationBelongs(world, o, k);
    case OfMember(m) => MemberBelongs(m, k);
    case OfReadyUser(user) => hide OfUser;
  }

  lemma AggregateBelongs(k: Key)
    requires k in ClusterWrites()
    ensures Belongs(OfCluster, k, Apply(ClusterWrites()[k], EMPTY))
  {
    FixedNamesApart();
    hide Dockyards, ReaderTier, UserTier, SuperUserTier;
  }

  lemma OrganizationBelongs(world: World, o: Organization, k: Key)
    requires k in OrganizationWrites(world, o)
    ensures Belongs(OfOrg(o), k, Apply(OrganizationWrites(world, o)[k], EMPTY))
  {
    hide OfOrganization, InNamespace, SuperUsers, SuperUserRules, ReaderRules, OtherRules;
  }

  lemma MemberBelongs(m: Member, k: Key)
    requires k in MemberWrites(m)
    ensures Belongs(OfMember(m), k, Apply(MemberWrites(m)[k], EMPTY))
  {
    hide Join, Dockyards, SelfRules;
  }

  /** After every schedule, everything belongs to what it was written for. */
  lemma ObjectsBelong(world: World, events: seq<Event>, e: Event, k: Key)
    requires WellFormed(world) && !Collides(world) && Covers(world, events)
    requires Occurs(world, e) && k in WritesOf(world, e)
    ensures k in Run(world, map[], events) && Belongs(e, k, Run(world, map[], events)[k])
  {
    CoveringSettles(world, events);
    WritesBelong(world, e, k);
    hide WellFormed, Collides, Covers, Occurs, WritesOf, Apply, Run, Belongs;
    assert Wrote(world, Run(world, map[], events), e);
  }

  // ---------- what the table says ----------

  lemma TiersAreNested(a: MemberRole, b: MemberRole, verb: string, resource: string)
    requires Rank(a) <= Rank(b)
    ensures RoleMay(a, verb, resource) ==> RoleMay(b, verb, resource)
  {
  }

  /** A right that comes with a role, and with none below it. */
  function Mark(role: MemberRole): (string, string) {
    match role
    case Reader => ("get", "clusters")
    case RegularUser => ("create", "clusters")
    case SuperUser => ("create", "invitations")
  }

  lemma MarksTell(role: MemberRole, other: MemberRole)
    ensures RoleMay(other, Mark(role).0, Mark(role).1) <==> Rank(role) <= Rank(other)
  {
  }

  /** A member is allowed in its namespace whatever its role may do. */
  lemma MemberIsAllowed(world: World, events: seq<Event>, m: Member, verb: string, resource: string, name: string)
    requires WellFormed(world) && !Collides(world) && Covers(world, events)
    requires m in world.members && m.namespace != "" && RoleMay(m.role, verb, resource)
    ensures Allowed(Run(world, map[], events), m.user, GROUPS, Request(verb, GROUP, resource, name, m.namespace))
  {
    hide Run, Allowed, WellFormed, Collides, Covers, RoleMay;
    AuthorizerAgreesWithTable(world, events, m.user, Request(verb, GROUP, resource, name, m.namespace));
  }

  /** The same world but for the role of one member. */
  function WithRole(world: World, i: nat, role: MemberRole): World
    requires i < |world.members|
  {
    world.(members := world.members[i := world.members[i].(role := role)])
  }

  /** What a member gives, another one gives too. */
  ghost predicate Outranks(n: Member, m: Member) {
    n.namespace == m.namespace && n.user == m.user && Rank(m.role) <= Rank(n.role)
  }

  /** The rights of a user grow with the members that stand for it. */
  lemma MoreMembersMoreRights(world: World, other: World, user: string, req: Request)
    requires other.organizations == world.organizations && other.users == world.users
    requires forall m :: m in world.members && m.user == user ==> exists n :: n in other.members && Outranks(n, m)
    requires forall m :: m in world.members && m.user == user ==>
      exists n :: n in other.members && n.namespace == m.namespace && n.user == m.user && n.name == m.name
    ensures Permitted(world, user, req) ==> Permitted(other, user, req)
  {
    hide RoleMay;
    if NamespaceRight(world, user, req) {
      var m :| m in world.members && m.namespace == req.namespace && m.user == user
               && (RoleMay(m.role, req.verb, req.resource) || MayLeave(m, req));
      if MayLeave(m, req) {
        var n :| n in other.members && n.namespace == m.namespace && n.user == m.user && n.name == m.name;
        assert MayLeave(n, req);
      } else {
        var n :| n in other.members && Outranks(n, m);
        TiersAreNested(m.role, n.role, req.verb, req.resource);
      }
      assert NamespaceRight(other, user, req);
    }
    if OrganizationRight(world, user, req) {
      var o, m :| o in world.organizations && o.namespace.Some? && o.name == req.name
                  && m in world.members && m.namespace == o.namespace.value && m.user == user
                  && (req.verb in READ_VERBS || (m.role == SuperUser && req.verb in {"delete", "patch", "update"}));
      var n :| n in other.members && Outranks(n, m);
      assert OrganizationRight(other, user, req);
    }
  }

  lemma RaisedOutranks(world: World, i: nat, role: MemberRole, m: Member)
    requires i < |world.members| && Rank(world.members[i].role) <= Rank(role) && m in world.members
    ensures exists n :: n in WithRole(world, i, role).members && Outranks(n, m) && n.name == m.name
  {
    var j :| 0 <= j < |world.members| && world.members[j] == m;
    assert WithRole(world, i, role).members[j] in WithRole(world, i, role).members;
  }

  lemma SameNames(world: World, i: nat, role: MemberRole)
    requires i < |world.members|
    ensures Collides(WithRole(world, i, role)) <==> Collides(world)
  {
    hide ClashAt;
  }

  /** Raising the role of a member takes no right from anyone, as the authorizer decides. */
  lemma RaisingOnlyAdds(world: World, i: nat, role: MemberRole, es: seq<Event>, fs: seq<Event>, user: string,
                        req: Request)
    requires i < |world.members| && Rank(world.members[i].role) <= Rank(role)
    requires WellFormed(world) && WellFormed(WithRole(world, i, role)) && !Collides(world)
    requires Covers(world, es) && Covers(WithRole(world, i, role), fs)
    requires Allowed(Run(world, map[], es), user, GROUPS, req)
    ensures Allowed(Run(WithRole(world, i, role), map[], fs), user, GROUPS, req)
  {
    var raised := WithRole(world, i, role);
    SameNames(world, i, role);
    hide Run, Allowed, WellFormed, Collides, Covers, Permitted;
    AuthorizerAgreesWithTable(world, es, user, req);
    forall m | m in world.members && m.user == user
      ensures exists n :: n in raised.members && Outranks(n, m)
      ensures exists n :: n in raised.members && n.namespace == m.namespace && n.user == m.user && n.name == m.name
    {
      RaisedOutranks(world, i, role, m);
    }
    MoreMembersMoreRights(world, raised, user, req);
    AuthorizerAgreesWithTable(raised, fs, user, req);
  }

  /** A member of the namespace that stands for the same user has this role or a higher one already. */
  ghost predicate HoldsAlready(world: World, i: nat, role: MemberRole)
    requires i < |world.members|
  {
    exists n :: n in world.members && Outranks(n, world.members[i].(role := role))
  }

  lemma HeldAlreadyAddsNothing(world: World, i: nat, role: MemberRole, req: Request)
    requires i < |world.members| && HoldsAlready(world, i, role)
    ensures Permitted(WithRole(world, i, role), world.members[i].user, req) ==>
      Permitted(world, world.members[i].user, req)
  {
    var raised := WithRole(world, i, role);
    forall m | m in raised.members
      ensures exists n :: n in world.members && Outranks(n, m)
      ensures exists n :: n in world.members && n.namespace == m.namespace && n.user == m.user && n.name == m.name
    {
      var j :| 0 <= j < |raised.members| && raised.members[j] == m;
      assert world.members[j] in world.members;
      if j != i {
        assert Outranks(world.members[j], m);
      }
    }
    MoreMembersMoreRights(raised, world, world.members[i].user, req);
  }

  /** The right that marks the new role, in the member's namespace. */
  function Gained(world: World, i: nat, role: MemberRole): Request
    requires i < |world.members|
  {
    Request(Mark(role).0, GROUP, Mark(role).1, "", world.members[i].namespace)
  }

  lemma MarkIsNew(world: World, i: nat, role: MemberRole)
    requires i < |world.members| && world.members[i].namespace != ""
    ensures Permitted(world, world.members[i].user, Gained(world, i, role)) ==> HoldsAlready(world, i, role)
  {
    hide RoleMay;
    var req, user := Gained(world, i, role), world.members[i].user;
    if NamespaceRight(world, user, req) {
      var m :| m in world.members && m.namespace == req.namespace && m.user == user
               && (RoleMay(m.role, req.verb, req.resource) || MayLeave(m, req));
      MarksTell(role, m.role);
      assert Outranks(m, world.members[i].(role := role));
    }
  }

  /** Raising a member adds a right for its user if and only if no other member of the namespace that stands
      for the user has the new role or a higher one. */
  lemma RaisingAddsIff(world: World, i: nat, role: MemberRole, es: seq<Event>, fs: seq<Event>)
    requires i < |world.members| && world.members[i].namespace != ""
    requires WellFormed(world) && WellFormed(WithRole(world, i, role)) && !Collides(world)
    requires Covers(world, es) && Covers(WithRole(world, i, role), fs)
    ensures !HoldsAlready(world, i, role) <==>
      exists req :: && Allowed(Run(WithRole(world, i, role), map[], fs), world.members[i].user, GROUPS, req)
                    && !Allowed(Run(world, map[], es), world.members[i].user, GROUPS, req)
  {
    var raised, user := WithRole(world, i, role), world.members[i].user;
    SameNames(world, i, role);
    hide Run, Allowed, WellFormed, Collides, Covers, Permitted, HoldsAlready, Mark, RoleMay;
    if HoldsAlready(world, i, role) {
      forall req | Allowed(Run(raised, map[], fs), user, GROUPS, req)
        ensures Allowed(Run(world, map[], es), user, GROUPS, req)
      {
        AuthorizerAgreesWithTable(raised, fs, user, req);
        HeldAlreadyAddsNothing(world, i, role, req);
        AuthorizerAgreesWithTable(world, es, user, req);
      }
    } else {
      var req := Gained(world, i, role);
      MarkIsNew(world, i, role);
      AuthorizerAgreesWithTable(world, es, user, req);
      MarksTell(role, role);
      assert raised.members[i] in raised.members;
      MemberIsAllowed(raised, fs, raised.members[i], req.verb, req.resource, req.name);
    }
  }

  /** Without a membership in the namespace nothing there is allowed but the `:other` rule: deleting or
      patching an invitation that bears the name of an organization. Organizations and users, which live
      in no namespace, are the only resources for which more than that can be allowed. */
  lemma NoRightsInOtherNamespaces(world: World, events: seq<Event>, user: string, req: Request)
    requires WellFormed(world) && !Collides(world) && Covers(world, events)
    requires req.resource !in {"organizations", "users"}
    requires forall m :: m in world.members && m.namespace == req.namespace ==> m.user != user
    ensures Allowed(Run(world, map[], events), user, GROUPS, req) <==>
      && req.apiGroup == GROUP && req.resource == "invitations" && req.verb in {"delete", "patch"}
      && exists o :: o in world.organizations && o.namespace.Some? && o.name == req.name
  {
    hide Run, Allowed, WellFormed, Collides, Covers;
    AuthorizerAgreesWithTable(world, events, user, req);
  }

  /** Organizations can be read by their members only and changed by their super users only. */
  lemma OrganizationsBelongToMembers(world: World, events: seq<Event>, user: string, o: Organization, verb: string,
                                     namespace: string)
    requires WellFormed(world) && !Collides(world) && Covers(world, events)
    requires o in world.organizations && o.namespace.Some?
    ensures Allowed(Run(world, map[], events), user, GROUPS,
                    Request(verb, GROUP, "organizations", o.name, namespace)) <==>
      || (verb in READ_VERBS && exists m :: m in world.members && m.namespace == o.namespace.value && m.user == user)
      || (verb in {"delete", "patch", "update"}
          && exists m :: && m in world.members && m.namespace == o.namespace.value && m.user == user
                         && m.role == SuperUser)
  {
    hide Run, Allowed, Collides, Covers, NamespaceRight;
    var req := Request(verb, GROUP, "organizations", o.name, namespace);
    AuthorizerAgreesWithTable(world, events, user, req);
    OrganizationsAreNotNamespaced(world, user, req);
  }

  lemma OrganizationsAreNotNamespaced(world: World, user: string, req: Request)
    requires req.resource == "organizations"
    ensures !NamespaceRight(world, user, req)
  {
  }

  // ---------- members whose role changes ----------

  function Highest(roles: seq<MemberRole>): MemberRole
    requires roles != []
  {
    var last := roles[|roles| - 1];
    if |roles| == 1 then last
    else
      var before := Highest(roles[..|roles| - 1]);
      if Rank(before) < Rank(last) then last else before
  }

  /** Reconciling one member again and again while its role changes. */
  function RunRoles(store: Store, m: Member, roles: seq<MemberRole>): Store {
    if roles == [] then store
    else ApplyWrites(RunRoles(store, m, roles[..|roles| - 1]), MemberWrites(m.(role := roles[|roles| - 1])))
  }

  method ReconcileRoles(c: Client, m: Member, roles: seq<MemberRole>)
    modifies c
    ensures c.store == RunRoles(old(c.store), m, roles)
  {
    hide MemberWrites, ApplyWrites;
    for i := 0 to |roles|
      invariant c.store == RunRoles(old(c.store), m, roles[..i])
    {
      assert roles[..i + 1][..i] == roles[..i];
      ReconcileMemberAuthorization(c, m.(role := roles[i]));
    }
    assert roles[..|roles|] == roles;
  }

  lemma RolesOnlyAdd(m: Member, a: MemberRole, b: MemberRole)
    ensures Coherent(MemberWrites(m.(role := a)), MemberWrites(m.(role := b)))
    ensures MemberWrites(m.(role := a)) + MemberWrites(m.(role := b))
         == MemberWrites(m.(role := if Rank(a) < Rank(b) then b else a))
  {
    MemberNamesApart(m);
    hide Join, RolePatch;
  }

  /** The store after any run is the one that the highest role of the run gives: a role that was held once
      keeps its bindings. */
  lemma {:induction false} HighestRoleCounts(store: Store, m: Member, roles: seq<MemberRole>)
    requires roles != []
    ensures RunRoles(store, m, roles) == ApplyWrites(store, MemberWrites(m.(role := Highest(roles))))
  {
    hide MemberWrites, ApplyWrites;
    var n := |roles| - 1;
    if n > 0 {
      HighestRoleCounts(store, m, roles[..n]);
      RolesOnlyAdd(m, Highest(roles[..n]), roles[n]);
      ApplyMerged(store, MemberWrites(m.(role := Highest(roles[..n]))), MemberWrites(m.(role := roles[n])));
    } else {
      assert roles[..n] == [];
    }
  }

  lemma {:induction false} HighestIsHighest(roles: seq<MemberRole>)
    requires roles != []
    ensures Highest(roles) in roles
    ensures forall role :: role in roles ==> Rank(role) <= Rank(Highest(roles))
  {
    var n := |roles| - 1;
    assert roles == roles[..n] + [roles[n]];
    if n > 0 {
      HighestIsHighest(roles[..n]);
    }
  }

  /** The bindings that exist after a run, whatever the store held before it. */
  lemma BindingsAfterRun(store: Store, m: Member, roles: seq<MemberRole>)
    requires roles != []
    ensures var after := RunRoles(store, m, roles);
      && RoleBinding(m.namespace, Join(m.name, "reader")) in after
      && (RoleBinding(m.namespace, Join(m.name, "user")) in after <==>
            RoleBinding(m.namespace, Join(m.name, "user")) in store || exists role :: role in roles && role != Reader)
      && (RoleBinding(m.namespace, Join(m.name, "super-user")) in after <==>
            RoleBinding(m.namespace, Join(m.name, "super-user")) in store || SuperUser in roles)
  {
    var top := Highest(roles);
    HighestRoleCounts(store, m, roles);
    HighestIsHighest(roles);
    hide MemberWrites, Join, RunRoles, Highest, Apply;
    MemberWritesAt(m.(role := top), "reader");
    MemberWritesAt(m.(role := top), "user");
    MemberWritesAt(m.(role := top), "super-user");
  }

  /** What one role writes and another does not. */
  function Beyond(m: Member, a: MemberRole, b: MemberRole): Writes {
    MemberWrites(m.(role := a)) - MemberWrites(m.(role := b)).Keys
  }

  lemma OverlaidAlike(store: Store, a: Writes, b: Writes)
    requires forall k :: k in b ==> k in a && a[k] == b[k]
    ensures ApplyWrites(store, a) == ApplyWrites(store, b) <==> Holds(store, a - b.Keys)
  {
    hide Apply;
    var all, some := ApplyWrites(store, a), ApplyWrites(store, b);
    if all == some {
      forall k | k in a - b.Keys ensures k in store && Apply(a[k], store[k]) == store[k] {
        assert k in all;
      }
    }
    if Holds(store, a - b.Keys) {
      assert all.Keys == some.Keys;
      forall k | k in all ensures all[k] == some[k] {
        assert k in a && k !in b ==> k in a - b.Keys;
      }
    }
  }

  /** From any store, the last role alone would have led to the same store if and only if the store already
      held what the highest role writes beyond it. */
  lemma LastRoleCountsIffHeld(store: Store, m: Member, roles: seq<MemberRole>)
    requires roles != []
    ensures var last := roles[|roles| - 1];
      RunRoles(store, m, roles) == ApplyWrites(store, MemberWrites(m.(role := last)))
      <==> Holds(store, Beyond(m, Highest(roles), last))
  {
    var last, top := roles[|roles| - 1], Highest(roles);
    HighestRoleCounts(store, m, roles);
    HighestIsHighest(roles);
    hide MemberWrites, RunRoles, Highest, Apply, ApplyWrites, Holds;
    HigherWritesMore(m, last, top);
    OverlaidAlike(store, MemberWrites(m.(role := top)), MemberWrites(m.(role := last)));
  }

  lemma HigherWritesMore(m: Member, a: MemberRole, b: MemberRole)
    requires Rank(a) <= Rank(b)
    ensures forall k :: k in MemberWrites(m.(role := a)) ==>
      k in MemberWrites(m.(role := b)) && MemberWrites(m.(role := b))[k] == MemberWrites(m.(role := a))[k]
  {
    RolesOnlyAdd(m, a, b);
    hide MemberWrites;
    assert Rank(a) == Rank(b) ==> a == b;
  }

  function Tier(role: MemberRole): string {
    match role
    case Reader => "reader"
    case RegularUser => "user"
    case SuperUser => "super-user"
  }

  lemma HigherWritesItsTier(m: Member, a: MemberRole, b: MemberRole)
    requires Rank(a) < Rank(b)
    ensures RoleBinding(m.namespace, Join(m.name, Tier(b))) in Beyond(m, b, a)
  {
    MemberWritesAt(m.(role := a), Tier(b));
    MemberWritesAt(m.(role := b), Tier(b));
    hide MemberWrites, Join;
  }

  /** In particular, from a store without the member's bindings: if and only if no earlier role was higher. */
  lemma LastRoleCountsIffHighest(store: Store, m: Member, roles: seq<MemberRole>)
    requires roles != []
    requires forall s :: RoleBinding(m.namespace, Join(m.name, s)) !in store
    ensures RunRoles(store, m, roles) == ApplyWrites(store, MemberWrites(m.(role := roles[|roles| - 1])))
       <==> forall role :: role in roles ==> Rank(role) <= Rank(roles[|roles| - 1])
  {
    var last, top := roles[|roles| - 1], Highest(roles);
    LastRoleCountsIffHeld(store, m, roles);
    HighestIsHighest(roles);
    hide MemberWrites, ApplyWrites, Join, RunRoles, Highest, Apply;
    if Rank(last) < Rank(top) {
      HigherWritesItsTier(m, last, top);
    } else {
      assert top == last;
      assert Beyond(m, top, last) == map[];
    }
  }
}
