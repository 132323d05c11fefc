/** Reconciliation in any order, any number of times: when does it lead to one and the same store? */
module AuthorizationRuns {
  import opened Wrappers
  import opened Rbac
  import opened Authorization

  datatype Event = OfCluster | OfOrg(o: Organization) | OfMember(m: Member) | OfReadyUser(user: string)

  predicate Occurs(world: World, e: Event) {
    match e
    case OfCluster => true
    case OfOrg(o) => o in world.organizations
    case OfMember(m) => m in world.members
    case OfReadyUser(user) => user in world.users
  }

  function WritesOf(world: World, e: Event): Writes {
    match e
    case OfCluster => ClusterWrites()
    case OfOrg(o) => OrganizationWrites(world, o)
    case OfMember(m) => MemberWrites(m)
    case OfReadyUser(user) => UserWrites(user)
  }

  ghost predicate Schedule(world: World, events: seq<Event>) {
    forall e :: e in events ==> Occurs(world, e)
  }

  function Run(world: World, store: Store, events: seq<Event>): Store {
    if events == [] then store
    else ApplyWrites(Run(world, store, events[..|events| - 1]), WritesOf(world, events[|events| - 1]))
  }

  method Reconcile(c: Client, world: World, e: Event)
    modifies c
    ensures c.store == ApplyWrites(old(c.store), WritesOf(world, e))
  {
    match e
    case OfCluster => ReconcileClusterAuthorization(c);
    case OfOrg(o) => ReconcileOrganization(c, world, o);
    case OfMember(m) => ReconcileMemberAuthorization(c, m);
    case OfReadyUser(user) => ReconcileUserAuthorization(c, user);
  }

  method ReconcileAll(c: Client, world: World, events: seq<Event>)
    modifies c
    ensures c.store == Run(world, old(c.store), events)
  {
    hide WritesOf, ApplyWrites;
    for i := 0 to |events|
      invariant c.store == Run(world, old(c.store), events[..i])
    {
      assert events[..i + 1][..i] == events[..i];
      Reconcile(c, world, events[i]);
    }
    assert events[..|events|] == events;
  }

  /** Names identify: no two organizations share a name, and no two members of a namespace do. */
  ghost predicate WellFormed(world: World) {
    && (forall o, p :: o in world.organizations && p in world.organizations && o.name == p.name ==> o == p)
    && (forall m, n :: m in world.members && n in world.members && m.namespace == n.namespace && m.name == n.name ==>
        m == n)
  }

  // ---------- names ----------

  const ROLE_SUFFIXES: set<string> := {"super-user", "reader", "other"}
  const BINDING_SUFFIXES: set<string> := {"super-users", "readers", "others"}

  /** The name of a user's objects is also the name of an organization's. */
  ghost predicate ClashAt(o: Organization, user: string, suffix: string) {
    && o.namespace.Some?
    && suffix in ROLE_SUFFIXES + BINDING_SUFFIXES
    && Join("user", user) == Join(o.name, suffix)
  }

  ghost predicate Collides(world: World) {
    exists o, user, suffix :: o in world.organizations && user in world.users && ClashAt(o, user, suffix)
  }

  lemma DockyardsInjective(a: string, b: string)
    requires Dockyards(a) == Dockyards(b)
    ensures a == b
  {
    assert a == Dockyards(a)[10..] && b == Dockyards(b)[10..];
  }

  lemma JoinHasColon(a: string, b: string)
    ensures ':' in Join(a, b)
  {
    assert Join(a, b)[|a|] == ':';
  }

  /** What follows the last colon is free of colons. */
  lemma JoinSplit(a: string, b: string, c: string, d: string)
    requires Join(a, b) == Join(c, d) && ':' !in b && ':' !in d
    ensures a == c && b == d
  {
    var s := Join(a, b);
    assert s[|a|] == ':' && s[|c|] == ':';
    assert s[|a| + 1..] == b && s[|c| + 1..] == d;
    assert a == s[..|a|] && c == s[..|a|] && b == s[|a| + 1..] && d == s[|a| + 1..];
  }

  /** What precedes the first colon is free of colons. */
  lemma JoinSplitFirst(a: string, b: string, c: string, d: string)
    requires Join(a, b) == Join(c, d) && ':' !in a && ':' !in c
    ensures a == c && b == d
  {
    var s := Join(a, b);
    assert s[|a|] == ':' && s[|c|] == ':';
    assert s[..|a|] == a && s[..|c|] == c;
    assert a == s[..|a|] && c == s[..|a|] && b == s[|a| + 1..] && d == s[|a| + 1..];
  }

  lemma SuffixesHaveNoColon(suffix: string)
    requires suffix in ROLE_SUFFIXES + BINDING_SUFFIXES + {"self", "user"}
    ensures ':' !in suffix
  {
  }

  // ---------- keys ----------

  predicate OrganizationKey(name: string, k: Key) {
    || (k.ClusterRole? && exists s :: s in ROLE_SUFFIXES && k.name == OfOrganization(name, s))
    || (k.ClusterRoleBinding? && exists s :: s in BINDING_SUFFIXES && k.name == OfOrganization(name, s))
  }

  lemma OrganizationKeys(world: World, o: Organization, k: Key)
    ensures k in OrganizationWrites(world, o) ==> o.namespace.Some? && OrganizationKey(o.name, k)
  {
    hide OfOrganization, RolePatch, BindingPatch;
    assert "super-user" in ROLE_SUFFIXES && "super-users" in BINDING_SUFFIXES;
  }

  lemma MemberKeys(m: Member, k: Key)
    ensures k in MemberWrites(m) ==>
      && (k.Role? || k.RoleBinding?) && k.namespace == m.namespace
      && exists s :: s in ROLE_SUFFIXES + {"self", "user"} && k.name == Join(m.name, s)
  {
    hide Join, RolePatch, MemberBinding;
    assert {"self", "reader", "user", "super-user"} <= ROLE_SUFFIXES + {"self", "user"};
  }

  lemma ClusterKeys(k: Key)
    ensures k in ClusterWrites() ==> k.ClusterRole? && exists s :: ':' !in s && k.name == Dockyards(s)
  {
    hide Dockyards, RolePatch;
    FixedNamesApart();
    assert ':' !in "authenticated" && ':' !in "reader" && ':' !in "user" && ':' !in "super-user";
  }

  lemma OrganizationsApart(world: World, o: Organization, p: Organization, k: Key)
    requires k in OrganizationWrites(world, o) && k in OrganizationWrites(world, p)
    ensures o.name == p.name
  {
    OrganizationKeys(world, o, k);
    OrganizationKeys(world, p, k);
    hide OrganizationWrites;
    var s :| s in ROLE_SUFFIXES + BINDING_SUFFIXES && k.name == OfOrganization(o.name, s);
    var t :| t in ROLE_SUFFIXES + BINDING_SUFFIXES && k.name == OfOrganization(p.name, t);
    assert OfOrganization(o.name, s) == Dockyards(Join(o.name, s))
      && OfOrganization(p.name, t) == Dockyards(Join(p.name, t));
    DockyardsInjective(Join(o.name, s), Join(p.name, t));
    SuffixesHaveNoColon(s);
    SuffixesHaveNoColon(t);
    JoinSplit(o.name, s, p.name, t);
  }

  lemma MembersApart(m: Member, n: Member, k: Key)
    requires k in MemberWrites(m) && k in MemberWrites(n)
    ensures m.namespace == n.namespace && m.name == n.name
  {
    MemberKeys(m, k);
    MemberKeys(n, k);
    hide MemberWrites;
    var s :| s in ROLE_SUFFIXES + {"self", "user"} && k.name == Join(m.name, s);
    var t :| t in ROLE_SUFFIXES + {"self", "user"} && k.name == Join(n.name, t);
    SuffixesHaveNoColon(s);
    SuffixesHaveNoColon(t);
    JoinSplit(m.name, s, n.name, t);
  }

  lemma UsersApart(u: string, v: string, k: Key)
    requires k in UserWrites(u) && k in UserWrites(v)
    ensures u == v
  {
    assert k.name == OfUser(u) == OfUser(v);
    DockyardsInjective(Join("user", u), Join("user", v));
    assert u == Join("user", u)[5..] && v == Join("user", v)[5..];
  }

  lemma ClusterApart(world: World, e: Event, k: Key)
    requires k in ClusterWrites() && k in WritesOf(world, e)
    ensures e == OfCluster
  {
    ClusterKeys(k);
    hide ClusterWrites;
    var s :| ':' !in s && k.name == Dockyards(s);
    match e
    case OfCluster =>
    case OfOrg(o) =>
      OrganizationKeys(world, o, k);
      var t :| t in ROLE_SUFFIXES && k.name == OfOrganization(o.name, t);
      DockyardsInjective(s, Join(o.name, t));
      JoinHasColon(o.name, t);
    case OfMember(m) =>
      MemberKeys(m, k);
    case OfReadyUser(user) =>
      DockyardsInjective(s, Join("user", user));
      JoinHasColon("user", user);
  }

  lemma UserMeetsOrganization(world: World, user: string, o: Organization, k: Key)
    requires k in UserWrites(user) && k in OrganizationWrites(world, o)
    ensures exists suffix :: ClashAt(o, user, suffix)
  {
    OrganizationKeys(world, o, k);
    hide OrganizationWrites;
    assert k.name == OfUser(user);
    var s :| s in ROLE_SUFFIXES + BINDING_SUFFIXES && k.name == OfOrganization(o.name, s);
    assert OfOrganization(o.name, s) == Dockyards(Join(o.name, s));
    DockyardsInjective(Join("user", user), Join(o.name, s));
    assert ClashAt(o, user, s);
  }

  /** Without a clash of names, two events that write one object are the same event. */
  lemma EventsApart(world: World, d: Event, e: Event, k: Key)
    requires WellFormed(world) && !Collides(world) && Occurs(world, d) && Occurs(world, e)
    requires k in WritesOf(world, d) && k in WritesOf(world, e)
    ensures d == e
  {
    hide ClusterWrites, OrganizationWrites, MemberWrites, UserWrites, ClashAt;
    if d == OfCluster || e == OfCluster {
      ClusterApart(world, if d == OfCluster then e else d, k);
    } else if d.OfOrg? && e.OfOrg? {
      OrganizationsApart(world, d.o, e.o, k);
    } else if d.OfMember? && e.OfMember? {
      MembersApart(d.m, e.m, k);
    } else if d.OfReadyUser? && e.OfReadyUser? {
      UsersApart(d.user, e.user, k);
    } else if d.OfOrg? && e.OfReadyUser? {
      UserMeetsOrganization(world, e.user, d.o, k);
    } else if d.OfReadyUser? && e.OfOrg? {
      UserMeetsOrganization(world, d.user, e.o, k);
    } else {
      NamespacedApart(world, d, e, k);
    }
  }

  lemma NamespacedApart(world: World, d: Event, e: Event, k: Key)
    requires k in WritesOf(world, d) && k in WritesOf(world, e)
    ensures d.OfMember? <==> e.OfMember?
  {
    KindOfKey(world, d, k);
    KindOfKey(world, e, k);
  }

  lemma KindOfKey(world: World, e: Event, k: Key)
    requires k in WritesOf(world, e)
    ensures e.OfMember? <==> k.Role? || k.RoleBinding?
  {
    match e
    case OfCluster => ClusterKeys(k);
    case OfOrg(o) => OrganizationKeys(world, o, k);
    case OfMember(m) => MemberKeys(m, k);
    case OfReadyUser(user) =>
  }

  // ---------- schedules ----------

  /** All that a schedule writes; of clashing writes the last one. */
  ghost function Merged(world: World, events: seq<Event>): Writes {
    if events == [] then map[] else Merged(world, events[..|events| - 1]) + WritesOf(world, events[|events| - 1])
  }

  lemma {:induction false} MergedFrom(world: World, events: seq<Event>, k: Key)
    ensures k in Merged(world, events) ==>
      exists e :: e in events && k in WritesOf(world, e) && Merged(world, events)[k] == WritesOf(world, e)[k]
    ensures (exists e :: e in events && k in WritesOf(world, e)) ==> k in Merged(world, events)
  {
    hide WritesOf;
    if events != [] {
      var n := |events| - 1;
      MergedFrom(world, events[..n], k);
      assert events == events[..n] + [events[n]];
    }
  }

  lemma {:induction false} RunIsMerged(world: World, store: Store, events: seq<Event>)
    requires WellFormed(world) && !Collides(world) && Schedule(world, events)
    ensures Run(world, store, events) == ApplyWrites(store, Merged(world, events))
  {
    hide WritesOf, WellFormed, Collides, Occurs;
    if events == [] {
      assert ApplyWrites(store, map[]) == store;
    } else {
      var n := |events| - 1;
      var last, before := events[n], Merged(world, events[..n]);
      RunIsMerged(world, store, events[..n]);
      forall k | k in before && k in WritesOf(world, last) ensures before[k] == WritesOf(world, last)[k] {
        MergedFrom(world, events[..n], k);
        var e :| e in events[..n] && k in WritesOf(world, e) && before[k] == WritesOf(world, e)[k];
        EventsApart(world, e, last, k);
      }
      ApplyMerged(store, before, WritesOf(world, last));
    }
  }

  lemma SameEventsMergeAlike(world: World, es: seq<Event>, fs: seq<Event>)
    requires WellFormed(world) && !Collides(world) && Schedule(world, es) && Schedule(world, fs)
    requires forall e :: e in es <==> e in fs
    ensures Merged(world, es) == Merged(world, fs)
  {
    hide Merged, WritesOf, WellFormed, Collides, Occurs;
    forall k ensures k in Merged(world, es) <==> k in Merged(world, fs) {
      MergedFrom(world, es, k);
      MergedFrom(world, fs, k);
    }
    forall k | k in Merged(world, es) ensures Merged(world, es)[k] == Merged(world, fs)[k] {
      MergedFrom(world, es, k);
      MergedFrom(world, fs, k);
      var e :| e in es && k in WritesOf(world, e) && Merged(world, es)[k] == WritesOf(world, e)[k];
      var f :| f in fs && k in WritesOf(world, f) && Merged(world, fs)[k] == WritesOf(world, f)[k];
      EventsApart(world, e, f, k);
    }
  }

  /** Any two schedules of the same reconciliations, each run any number of times and in any order, end in
      the same store, whatever it held before. */
  lemma OrderDoesNotMatter(world: World, store: Store, es: seq<Event>, fs: seq<Event>)
    requires WellFormed(world) && !Collides(world) && Schedule(world, es) && Schedule(world, fs)
    requires forall e :: e in es <==> e in fs
    ensures Run(world, store, es) == Run(world, store, fs)
  {
    hide Run, Merged, ApplyWrites, WellFormed, Collides, Schedule;
    RunIsMerged(world, store, es);
    RunIsMerged(world, store, fs);
    SameEventsMergeAlike(world, es, fs);
  }

  ghost predicate Confluent(world: World) {
    forall es, fs :: Schedule(world, es) && Schedule(world, fs) && (forall e :: e in es <==> e in fs) ==>
      Run(world, map[], es) == Run(world, map[], fs)
  }

  lemma UserKeys(user: string)
    ensures ClusterRole(OfUser(user)) in UserWrites(user) && ClusterRoleBinding(OfUser(user)) in UserWrites(user)
    ensures UserWrites(user)[ClusterRole(OfUser(user))].labels == SetLabels(map[LABEL_USER := user])
    ensures UserWrites(user)[ClusterRoleBinding(OfUser(user))].subjects == Some([Subject.User(RBAC_GROUP, user)])
    ensures UserWrites(user)[ClusterRoleBinding(OfUser(user))].roleRef
      == Some(RoleRef(RBAC_GROUP, ToClusterRole, OfUser(user)))
  {
  }

  lemma OrganizationPatches(world: World, o: Organization, suffix: string)
    requires o.namespace.Some?
    ensures suffix in ROLE_SUFFIXES ==>
      && ClusterRole(OfOrganization(o.name, suffix)) in OrganizationWrites(world, o)
      && OrganizationWrites(world, o)[ClusterRole(OfOrganization(o.name, suffix))].labels == OrganizationLabel(o)
    ensures suffix in BINDING_SUFFIXES ==>
      && ClusterRoleBinding(OfOrganization(o.name, suffix)) in OrganizationWrites(world, o)
      && OrganizationWrites(world, o)[ClusterRoleBinding(OfOrganization(o.name, suffix))].roleRef.Some?
      && OrganizationWrites(world, o)[ClusterRoleBinding(OfOrganization(o.name, suffix))].roleRef.value.apiGroup == ""
  {
    var members := InNamespace(world.members, o.namespace.value);
    OrganizationWritesApart(o, members);
    hide OfOrganization, InNamespace;
  }

  /** Reconciling a user and an organization whose names clash leaves what the last one wrote. */
  lemma ClashIsNotConfluent(world: World, o: Organization, user: string, suffix: string)
    requires o in world.organizations && user in world.users && ClashAt(o, user, suffix)
    ensures !Confluent(world)
  {
    hide OrganizationWrites, UserWrites;
    var key := if suffix in ROLE_SUFFIXES then ClusterRole(OfUser(user)) else ClusterRoleBinding(OfUser(user));
    assert key.name == OfOrganization(o.name, suffix);
    var es, fs := [OfOrg(o), OfReadyUser(user)], [OfReadyUser(user), OfOrg(o)];
    assert es[..1] == [OfOrg(o)] && fs[..1] == [OfReadyUser(user)] && es[..1][..0] == [] && fs[..1][..0] == [];
    UserKeys(user);
    OrganizationPatches(world, o, suffix);
    var last, other := Run(world, map[], es)[key], Run(world, map[], fs)[key];
    if suffix in ROLE_SUFFIXES {
      assert last.labels == map[LABEL_USER := user] && other.labels == map[LABEL_ORGANIZATION := o.name];
      assert LABEL_USER in last.labels && LABEL_USER !in other.labels;
    } else {
      assert last.roleRef.value.apiGroup == RBAC_GROUP && other.roleRef.value.apiGroup == "";
    }
    assert forall e :: e in es <==> e in fs;
  }

  /** The order and number of reconciliations never matter if and only if no name of a user's objects is
      also the name of an organization's. */
  lemma ConfluentIffNoCollision(world: World)
    requires WellFormed(world)
    ensures Confluent(world) <==> !Collides(world)
  {
    hide Run, ClashAt, WellFormed;
    if Collides(world) {
      var o, user, suffix :| o in world.organizations && user in world.users && ClashAt(o, user, suffix);
      ClashIsNotConfluent(world, o, user, suffix);
    } else {
      forall es, fs | Schedule(world, es) && Schedule(world, fs) && (forall e :: e in es <==> e in fs)
        ensures Run(world, map[], es) == Run(world, map[], fs)
      {
        OrderDoesNotMatter(world, map[], es, fs);
      }
    }
  }

  /** Object names hold no colon. Then names clash exactly when an organization is called `user` and a user
      like one of the six suffixes. */
  lemma CollisionsByName(world: World)
    requires forall o :: o in world.organizations ==> ':' !in o.name
    ensures Collides(world) <==>
      && (exists o :: o in world.organizations && o.namespace.Some? && o.name == "user")
      && (exists suffix :: suffix in world.users && suffix in ROLE_SUFFIXES + BINDING_SUFFIXES)
  {
    if Collides(world) {
      var o, user, suffix :| o in world.organizations && user in world.users && ClashAt(o, user, suffix);
      JoinSplitFirst("user", user, o.name, suffix);
    }
    if o, suffix :| o in world.organizations && o.namespace.Some? && o.name == "user"
                    && suffix in world.users && suffix in ROLE_SUFFIXES + BINDING_SUFFIXES {
      assert ClashAt(o, suffix, suffix);
    }
  }
}
