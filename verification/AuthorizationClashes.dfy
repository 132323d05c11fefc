/** What a clash of names does to the rights: the authorizer agrees with the table whatever the order of
    reconciliation if and only if no names clash. */
module AuthorizationClashes {
  import opened Wrappers
  import opened Rbac
  import opened Authorization
  import opened AuthorizationRuns
  import opened AuthorizationTable

  // ---------- where the contents of the store come from ----------

  ghost predicate RulesFrom(world: World, e: Event, k: Key, rules: seq<PolicyRule>) {
    k in WritesOf(world, e) && WritesOf(world, e)[k].rules == Some(rules)
  }

  ghost predicate BindingFrom(world: World, e: Event, k: Key, ref: Option<RoleRef>) {
    k in WritesOf(world, e) && ref.Some? && WritesOf(world, e)[k].roleRef == ref
  }

  /** Clash or not, the rules of every cluster role and the role of every cluster role binding are those of
      one of the reconciliations. */
  ghost predicate Traced(world: World, store: Store) {
    forall k :: k in store ==>
      && (k.ClusterRole? ==> store[k].rules == [] || exists e :: RulesFrom(world, e, k, store[k].rules))
      && (k.ClusterRoleBinding? ==> exists e :: BindingFrom(world, e, k, store[k].roleRef))
  }

  lemma BindingsHaveRoles(world: World, e: Event, k: Key)
    requires k in WritesOf(world, e) && k.ClusterRoleBinding?
    ensures WritesOf(world, e)[k].roleRef.Some?
  {
    hide OfOrganization, OfUser, Dockyards, Join;
    match e
    case OfCluster => ClusterKeys(k);
    case OfOrg(o) =>
    case OfMember(m) => MemberKeys(m, k);
    case OfReadyUser(user) =>
  }

  lemma {:induction false} RunIsTraced(world: World, events: seq<Event>)
    ensures Traced(world, Run(world, map[], events))
  {
    hide WritesOf;
    if events != [] {
      var n := |events| - 1;
      var e, before, after := events[n], Run(world, map[], events[..n]), Run(world, map[], events);
      RunIsTraced(world, events[..n]);
      forall k | k in after
        ensures k.ClusterRole? ==> after[k].rules == [] || exists f :: RulesFrom(world, f, k, after[k].rules)
        ensures k.ClusterRoleBinding? ==> exists f :: BindingFrom(world, f, k, after[k].roleRef)
      {
        if k in WritesOf(world, e) {
          if k.ClusterRoleBinding? {
            BindingsHaveRoles(world, e, k);
            assert BindingFrom(world, e, k, after[k].roleRef);
          }
          if WritesOf(world, e)[k].rules.Some? {
            assert RulesFrom(world, e, k, after[k].rules);
          }
        }
      }
    }
  }

  // ---------- a user's right to itself ----------

  function Itself(user: string): Request {
    Request("get", GROUP, "users", user, "")
  }

  /** Nothing but a user's own role lets anyone read the user. */
  lemma OnlyOwnRole(world: World, e: Event, k: Key, rules: seq<PolicyRule>, user: string)
    requires k.ClusterRole? && RulesFrom(world, e, k, rules) && AnyRule(rules, Itself(user))
    ensures k == ClusterRole(OfUser(user)) && e == OfReadyUser(user)
  {
    hide OfOrganization, OfUser, Dockyards, Join;
    match e
    case OfCluster =>
      ReaderRuleAllows(Itself(user));
      UserRuleAllows(Itself(user));
      SuperUserRuleAllows(Itself(user));
    case OfOrg(o) =>
    case OfMember(m) => MemberKeys(m, k);
    case OfReadyUser(v) => assert rules == UserRules(v);
  }

  /** Where the names of the user and of an organization clash, only the user's own binding refers to the
      user's role, unless the clash is one of roles. */
  lemma OnlyOwnBinding(world: World, o: Organization, user: string, suffix: string, e: Event, k: Key, ref: RoleRef)
    requires ClashAt(o, user, suffix) && suffix in BINDING_SUFFIXES
    requires k.ClusterRoleBinding? && BindingFrom(world, e, k, Some(ref))
    requires ref.name == OfUser(user)
    ensures e == OfReadyUser(user)
  {
    hide WritesOf;
    match e
    case OfCluster => assert WritesOf(world, e) == ClusterWrites() by { WritesOfCluster(world); } ClusterKeys(k);
    case OfMember(m) => assert WritesOf(world, e) == MemberWrites(m) by { WritesOfMember(world, m); } MemberKeys(m, k);
    case OfReadyUser(v) =>
      UserRefers(world, v, k, ref);
      DockyardsInjective(Join("user", user), Join("user", v));
      assert Join("user", user)[5..] == user && Join("user", v)[5..] == v;
    case OfOrg(p) =>
      var s := OrganizationRefers(world, p, k, ref);
      DockyardsInjective(Join("user", user), Join(p.name, s));
      SuffixesHaveNoColon(s);
      SuffixesHaveNoColon(suffix);
      JoinSplit(o.name, suffix, p.name, s);
      assert false;
  }

  lemma WritesOfCluster(world: World)
    ensures WritesOf(world, OfCluster) == ClusterWrites()
  {
  }

  lemma WritesOfMember(world: World, m: Member)
    ensures WritesOf(world, OfMember(m)) == MemberWrites(m)
  {
  }

  lemma UserRefers(world: World, user: string, k: Key, ref: RoleRef)
    requires k.ClusterRoleBinding? && BindingFrom(world, OfReadyUser(user), k, Some(ref))
    ensures ref == RoleRef(RBAC_GROUP, ToClusterRole, OfUser(user)) && k.name == OfUser(user)
  {
    hide OfUser;
  }

  lemma OrganizationRefers(world: World, o: Organization, k: Key, ref: RoleRef) returns (suffix: string)
    requires k.ClusterRoleBinding? && BindingFrom(world, OfOrg(o), k, Some(ref))
    ensures suffix in ROLE_SUFFIXES && ref == RoleRef("", ToClusterRole, OfOrganization(o.name, suffix))
  {
    hide OfOrganization;
    OrganizationWritesAt(world, o);
    suffix := if k == ClusterRoleBinding(OfOrganization(o.name, "super-users")) then "super-user"
              else if k == ClusterRoleBinding(OfOrganization(o.name, "readers")) then "reader" else "other";
  }

  // ---------- a clash loses a right ----------

  lemma RoleOfBinding(world: World, e: Event, k: Key, ref: RoleRef)
    requires k.ClusterRoleBinding? && BindingFrom(world, e, k, Some(ref))
    ensures ref.kind == ToClusterRole
  {
    hide WritesOf;
    match e
    case OfCluster =>
      WritesOfCluster(world);
      ClusterKeys(k);
    case OfMember(m) =>
      WritesOfMember(world, m);
      MemberKeys(m, k);
    case OfReadyUser(v) => UserRefers(world, v, k, ref);
    case OfOrg(p) => var _ := OrganizationRefers(world, p, k, ref);
  }

  /** A binding that lets the user read itself refers to the user's own role, and the rules of that role
      are the user's own. */
  lemma GrantOfItself(world: World, store: Store, name: string, user: string) returns (e: Event, ref: RoleRef)
    requires Traced(world, store) && Grants(store, ClusterRoleBinding(name), user, GROUPS, Itself(user))
    ensures BindingFrom(world, e, ClusterRoleBinding(name), Some(ref))
      && store[ClusterRoleBinding(name)].roleRef == Some(ref)
    ensures ref.name == OfUser(user)
    ensures ClusterRole(OfUser(user)) in store && AnyRule(store[ClusterRole(OfUser(user))].rules, Itself(user))
  {
    hide WritesOf, OfUser, RuleAllows;
    var k := ClusterRoleBinding(name);
    e :| BindingFrom(world, e, k, store[k].roleRef);
    ref := store[k].roleRef.value;
    RoleOfBinding(world, e, k, ref);
    var role := ClusterRole(ref.name);
    assert AnyRule(Lookup(store, role).rules, Itself(user));
    var f :| RulesFrom(world, f, role, store[role].rules);
    OnlyOwnRole(world, f, role, store[role].rules, user);
  }

  /** After a schedule that ends with the reconciliation of an organization whose names clash with a user's,
      the user cannot even read itself. */
  lemma ClashLosesItself(world: World, events: seq<Event>, o: Organization, user: string, suffix: string)
    requires ClashAt(o, user, suffix)
    ensures !Allowed(Run(world, map[], events + [OfOrg(o)]), user, GROUPS, Itself(user))
  {
    var all := events + [OfOrg(o)];
    assert all[..|events|] == events;
    RunIsTraced(world, all);
    var store := Run(world, map[], all);
    assert store == ApplyWrites(Run(world, map[], events), WritesOf(world, OfOrg(o)));
    OrganizationHas(world, o, user, suffix);
    hide WritesOf, OfUser, Traced, Grants, Run;
    forall name ensures !Grants(store, ClusterRoleBinding(name), user, GROUPS, Itself(user)) {
      if Grants(store, ClusterRoleBinding(name), user, GROUPS, Itself(user)) {
        var e, ref := GrantOfItself(world, store, name, user);
        if suffix in ROLE_SUFFIXES {
          var key := ClusterRole(OfUser(user));
          OnlyOwnRole(world, OfOrg(o), key, store[key].rules, user);
        } else {
          var key := ClusterRoleBinding(OfUser(user));
          OnlyOwnBinding(world, o, user, suffix, e, ClusterRoleBinding(name), ref);
          UserRefers(world, user, ClusterRoleBinding(name), ref);
          OnlyOwnBinding(world, o, user, suffix, OfOrg(o), key, ref);
        }
      }
    }
  }

  lemma OrganizationHas(world: World, o: Organization, user: string, suffix: string)
    requires ClashAt(o, user, suffix)
    ensures var w := WritesOf(world, OfOrg(o));
      && (suffix in ROLE_SUFFIXES ==> ClusterRole(OfUser(user)) in w && w[ClusterRole(OfUser(user))].rules.Some?)
      && (suffix in BINDING_SUFFIXES ==>
            ClusterRoleBinding(OfUser(user)) in w && w[ClusterRoleBinding(OfUser(user))].roleRef.Some?)
  {
    OrganizationWritesAt(world, o);
    assert OfUser(user) == OfOrganization(o.name, suffix);
    hide OfUser, OfOrganization, InNamespace;
  }

  // ---------- agreement ----------

  /** All of a set, in some order. */
  lemma {:induction false} Listing<T>(all: set<T>) returns (items: seq<T>)
    ensures forall x :: x in items <==> x in all
  {
    if all == {} {
      items := [];
    } else {
      var x :| x in all;
      var rest := Listing(all - {x});
      items := rest + [x];
    }
  }

  lemma CoveringExists(world: World) returns (events: seq<Event>)
    ensures Covers(world, events)
  {
    var organizations := Listing(set o | o in world.organizations :: OfOrg(o));
    var members := Listing(set m | m in world.members :: OfMember(m));
    var users := Listing(set user | user in world.users :: OfReadyUser(user));
    events := [OfCluster] + organizations + members + users;
    forall e | Occurs(world, e) ensures e in events {
      assert e in [OfCluster] || e in organizations || e in members || e in users;
    }
  }

  /** Whatever is asked, after any schedule that reconciles everything at least once. */
  ghost predicate AlwaysAgrees(world: World) {
    forall events, user, req :: Covers(world, events) ==>
      (Allowed(Run(world, map[], events), user, GROUPS, req) <==> Permitted(world, user, req))
  }

  /** The authorizer decides as the table says, after every such schedule, if and only if no name of a
      user's objects is also the name of an organization's. */
  lemma AgreesIffNoCollision(world: World)
    requires WellFormed(world)
    ensures AlwaysAgrees(world) <==> !Collides(world)
  {
    hide Run, Allowed, Permitted, WellFormed, Covers;
    if Collides(world) {
      var o, user, suffix :| o in world.organizations && user in world.users && ClashAt(o, user, suffix);
      ClashDisagrees(world, o, user, suffix);
    } else {
      forall events, user, req | Covers(world, events)
        ensures Allowed(Run(world, map[], events), user, GROUPS, req) <==> Permitted(world, user, req)
      {
        AuthorizerAgreesWithTable(world, events, user, req);
      }
    }
  }

  lemma ClashDisagrees(world: World, o: Organization, user: string, suffix: string)
    requires o in world.organizations && user in world.users && ClashAt(o, user, suffix)
    ensures !AlwaysAgrees(world)
  {
    hide WritesOf, Allowed, ClashAt, Traced;
    var some := CoveringExists(world);
    var events := some + [OfOrg(o)];
    assert Covers(world, events);
    ClashLosesItself(world, some, o, user, suffix);
    assert OwnRight(world, user, Itself(user));
    assert Permitted(world, user, Itself(user));
  }
}
