/** What pkg/authorization writes for organizations, members and users. */
module Authorization {
  import opened Wrappers
  import opened Rbac

  const GROUP := "dockyards.io"
  const GROUP_VERSION := "dockyards.io/v1alpha3"
  const RBAC_GROUP := "rbac.authorization.k8s.io"
  const AUTHENTICATED := "dockyards:authenticated"
  const AGGREGATE_LABEL := "rbac.dockyards.io/aggregate-to-authenticated"
  const LABEL_ORGANIZATION := "dockyards.io/organization-name"
  const LABEL_MEMBER := "dockyards.io/member-name"
  const LABEL_USER := "dockyards.io/user-name"

  datatype MemberRole = SuperUser | RegularUser | Reader
  datatype Organization = Organization(name: string, uid: nat, namespace: Option<string>)
  datatype Member = Member(namespace: string, name: string, uid: nat, role: MemberRole, user: string)

  /** The objects that reconciliation reads. Members come in the order in which they are listed. */
  datatype World = World(organizations: set<Organization>, members: seq<Member>, users: set<string>)

  function InNamespace(members: seq<Member>, namespace: string): seq<Member> {
    if members == [] then []
    else
      var n := |members| - 1;
      InNamespace(members[..n], namespace) + if members[n].namespace == namespace then [members[n]] else []
  }

  // ---------- names ----------

  function Join(a: string, b: string): string {
    a + ":" + b
  }

  function Dockyards(rest: string): string {
    Join("dockyards", rest)
  }

  function OfOrganization(organization: string, suffix: string): string {
    Dockyards(Join(organization, suffix))
  }

  function OfUser(user: string): string {
    Dockyards(Join("user", user))
  }

  // ---------- rules ----------

  function NamedRule(verbs: seq<string>, resource: string, names: seq<string>): PolicyRule {
    PolicyRule(verbs, [GROUP], [resource], names)
  }

  function SuperUserRules(organization: string): seq<PolicyRule> {
    [NamedRule(["delete", "patch", "update"], "organizations", [organization])]
  }

  function ReaderRules(organization: string): seq<PolicyRule> {
    [NamedRule(["get", "list", "watch"], "organizations", [organization])]
  }

  function OtherRules(organization: string): seq<PolicyRule> {
    [NamedRule(["delete", "patch"], "invitations", [organization])]
  }

  function SelfRules(member: string): seq<PolicyRule> {
    [NamedRule(["delete"], "members", ["@me", member])]
  }

  function UserRules(user: string): seq<PolicyRule> {
    [NamedRule(["delete", "get", "patch", "update"], "users", [user])]
  }

  const READ_RESOURCES := ["clusters", "dnszones", "invitations", "members", "nodepools", "nodes", "workloads"]
  const WRITE_RESOURCES := ["clusters", "nodepools", "nodes", "workloads"]

  function ReaderTier(): seq<PolicyRule> {
    [PolicyRule(["get", "list", "watch"], [GROUP], READ_RESOURCES, [])]
  }

  function UserTier(): seq<PolicyRule> {
    [PolicyRule(["create", "delete", "patch", "update"], [GROUP], WRITE_RESOURCES, [])]
  }

  function SuperUserTier(): seq<PolicyRule> {
    [NamedRule(["create", "delete"], "invitations", []), NamedRule(["delete", "patch", "update"], "members", [])]
  }

  // ---------- the writes, call by call ----------

  function RolePatch(labels: Labels, owners: Option<seq<OwnerReference>>, rules: seq<PolicyRule>): Patch {
    Patch(labels, owners, None, Some(rules), None, None)
  }

  function BindingPatch(labels: Labels, owners: Option<seq<OwnerReference>>, ref: RoleRef,
                        subjects: seq<Subject>): Patch {
    Patch(labels, owners, None, None, Some(ref), Some(subjects))
  }

  function OrganizationOwner(o: Organization): Option<seq<OwnerReference>> {
    Some([OwnerReference(GROUP_VERSION, "Organization", o.name, o.uid)])
  }

  function OrganizationLabel(o: Organization): Labels {
    SetLabels(map[LABEL_ORGANIZATION := o.name])
  }

  function AsSubjects(members: seq<Member>): seq<Subject> {
    seq(|members|, i requires 0 <= i < |members| => Subject.User(RBAC_GROUP, members[i].user))
  }

  function SuperUsers(members: seq<Member>): seq<Member> {
    if members == [] then []
    else
      var n := |members| - 1;
      SuperUsers(members[..n]) + if members[n].role == SuperUser then [members[n]] else []
  }

  function SuperUserWrites(o: Organization, members: seq<Member>): Writes {
    map[ClusterRole(OfOrganization(o.name, "super-user")) :=
          RolePatch(OrganizationLabel(o), OrganizationOwner(o), SuperUserRules(o.name)),
        ClusterRoleBinding(OfOrganization(o.name, "super-users")) :=
          BindingPatch(MergeLabel(LABEL_ORGANIZATION, o.name), OrganizationOwner(o),
                       RoleRef("", ToClusterRole, OfOrganization(o.name, "super-user")),
                       AsSubjects(SuperUsers(members)))]
  }

  function ReaderWrites(o: Organization, members: seq<Member>): Writes {
    map[ClusterRole(OfOrganization(o.name, "reader")) :=
          RolePatch(OrganizationLabel(o), OrganizationOwner(o), ReaderRules(o.name)),
        ClusterRoleBinding(OfOrganization(o.name, "readers")) :=
          BindingPatch(OrganizationLabel(o), OrganizationOwner(o),
                       RoleRef("", ToClusterRole, OfOrganization(o.name, "reader")), AsSubjects(members))]
  }

  function OtherWrites(o: Organization): Writes {
    map[ClusterRole(OfOrganization(o.name, "other")) :=
          RolePatch(OrganizationLabel(o), OrganizationOwner(o), OtherRules(o.name)),
        ClusterRoleBinding(OfOrganization(o.name, "others")) :=
          BindingPatch(OrganizationLabel(o), OrganizationOwner(o),
                       RoleRef("", ToClusterRole, OfOrganization(o.name, "other")),
                       [Subject.Group(RBAC_GROUP, AUTHENTICATED)])]
  }

  /** Organizations without a namespace are passed over. */
  function OrganizationWrites(world: World, o: Organization): Writes {
    match o.namespace
    case None => map[]
    case Some(namespace) =>
      var members := InNamespace(world.members, namespace);
      SuperUserWrites(o, members) + ReaderWrites(o, members) + OtherWrites(o)
  }

  function AggregatePatch(): Patch {
    Patch(KeepLabels, None, Some([map[AGGREGATE_LABEL := "true"]]), None, None, None)
  }

  function ClusterWrites(): Writes {
    map[ClusterRole(AUTHENTICATED) := AggregatePatch(),
        ClusterRole(Dockyards("reader")) := RolePatch(KeepLabels, None, ReaderTier()),
        ClusterRole(Dockyards("user")) := RolePatch(KeepLabels, None, UserTier()),
        ClusterRole(Dockyards("super-user")) := RolePatch(KeepLabels, None, SuperUserTier())]
  }

  function MemberOwner(m: Member): Option<seq<OwnerReference>> {
    Some([OwnerReference(GROUP_VERSION, "Member", m.name, m.uid)])
  }

  function MemberLabel(m: Member): Labels {
    SetLabels(map[LABEL_MEMBER := m.name])
  }

  function MemberBinding(m: Member, kind: RefKind, role: string): Patch {
    BindingPatch(MemberLabel(m), MemberOwner(m), RoleRef(RBAC_GROUP, kind, role), [Subject.User(RBAC_GROUP, m.user)])
  }

  function BaseWrites(m: Member): Writes {
    map[Role(m.namespace, Join(m.name, "self")) := RolePatch(MemberLabel(m), MemberOwner(m), SelfRules(m.name)),
        RoleBinding(m.namespace, Join(m.name, "self")) := MemberBinding(m, ToRole, Join(m.name, "self")),
        RoleBinding(m.namespace, Join(m.name, "reader")) := MemberBinding(m, ToClusterRole, Dockyards("reader"))]
  }

  function TierWrites(m: Member, tier: string): Writes {
    map[RoleBinding(m.namespace, Join(m.name, tier)) := MemberBinding(m, ToClusterRole, Dockyards(tier))]
  }

  function MemberWrites(m: Member): Writes {
    match m.role
    case Reader => BaseWrites(m)
    case RegularUser => BaseWrites(m) + TierWrites(m, "user")
    case SuperUser => BaseWrites(m) + TierWrites(m, "user") + TierWrites(m, "super-user")
  }

  function UserWrites(user: string): Writes {
    map[ClusterRole(OfUser(user)) := RolePatch(SetLabels(map[LABEL_USER := user]), None, UserRules(user)),
        ClusterRoleBinding(OfUser(user)) :=
          BindingPatch(SetLabels(map[LABEL_USER := user]), None,
                       RoleRef(RBAC_GROUP, ToClusterRole, OfUser(user)), [Subject.User(RBAC_GROUP, user)])]
  }

  // ---------- the calls ----------

  lemma ApplyPair(store: Store, a: Writes, b: Writes)
    requires a.Keys !! b.Keys
    ensures ApplyWrites(ApplyWrites(store, a), b) == ApplyWrites(store, a + b)
  {
    ApplyMerged(store, a, b);
  }

  lemma ApplyThree(store: Store, k: Key, p: Patch, l: Key, q: Patch, m: Key, r: Patch)
    requires k != l && k != m && l != m
    ensures ApplyWrites(ApplyWrites(ApplyWrites(store, map[k := p]), map[l := q]), map[m := r])
         == ApplyWrites(store, map[k := p, l := q, m := r])
  {
    hide ApplyWrites;
    ApplyPair(store, map[k := p], map[l := q]);
    ApplyPair(store, map[k := p] + map[l := q], map[m := r]);
    assert map[k := p] + map[l := q] + map[m := r] == map[k := p, l := q, m := r];
  }

  method ReconcileOrganizationSuperUser(c: Client, world: World, o: Organization, namespace: string)
    modifies c
    ensures c.store == ApplyWrites(old(c.store), SuperUserWrites(o, InNamespace(world.members, namespace)))
  {
    hide Overwritten, ApplyWrites, RolePatch, BindingPatch, OfOrganization, SuperUserRules;
    var role := ClusterRole(OfOrganization(o.name, "super-user"));
    var rolePatch := RolePatch(OrganizationLabel(o), OrganizationOwner(o), SuperUserRules(o.name));
    var _ := c.CreateOrPatch(role, rolePatch);

    var memberList := InNamespace(world.members, namespace);
    var subjects: seq<Subject> := [];
    for i := 0 to |memberList|
      invariant subjects == AsSubjects(SuperUsers(memberList[..i]))
    {
      assert memberList[..i + 1][..i] == memberList[..i];
      if memberList[i].role != SuperUser {
        continue;
      }
      subjects := subjects + [Subject.User(RBAC_GROUP, memberList[i].user)];
    }
    assert memberList[..|memberList|] == memberList;

    var binding := ClusterRoleBinding(OfOrganization(o.name, "super-users"));
    var bindingPatch := BindingPatch(MergeLabel(LABEL_ORGANIZATION, o.name), OrganizationOwner(o),
                                     RoleRef("", ToClusterRole, role.name), subjects);
    var _ := c.CreateOrPatch(binding, bindingPatch);
    ApplyPair(old(c.store), map[role := rolePatch], map[binding := bindingPatch]);
    assert map[role := rolePatch] + map[binding := bindingPatch] == SuperUserWrites(o, memberList);
  }

  method ReconcileOrganizationReader(c: Client, world: World, o: Organization, namespace: string)
    modifies c
    ensures c.store == ApplyWrites(old(c.store), ReaderWrites(o, InNamespace(world.members, namespace)))
  {
    hide Overwritten, ApplyWrites, RolePatch, BindingPatch, OfOrganization, ReaderRules;
    var role := ClusterRole(OfOrganization(o.name, "reader"));
    var rolePatch := RolePatch(OrganizationLabel(o), OrganizationOwner(o), ReaderRules(o.name));
    var _ := c.CreateOrPatch(role, rolePatch);

    var memberList := InNamespace(world.members, namespace);
    var subjects := seq(|memberList|, _ => Subject.User("", ""));
    for i := 0 to |memberList|
      invariant |subjects| == |memberList|
      invariant forall j :: 0 <= j < i ==> subjects[j] == Subject.User(RBAC_GROUP, memberList[j].user)
    {
      subjects := subjects[i := Subject.User(RBAC_GROUP, memberList[i].user)];
    }
    assert subjects == AsSubjects(memberList);

    var binding := ClusterRoleBinding(OfOrganization(o.name, "readers"));
    var bindingPatch := BindingPatch(OrganizationLabel(o), OrganizationOwner(o), RoleRef("", ToClusterRole, role.name),
                                     subjects);
    var _ := c.CreateOrPatch(binding, bindingPatch);
    ApplyPair(old(c.store), map[role := rolePatch], map[binding := bindingPatch]);
    assert map[role := rolePatch] + map[binding := bindingPatch] == ReaderWrites(o, memberList);
  }

  method ReconcileOther(c: Client, o: Organization)
    modifies c
    ensures c.store == ApplyWrites(old(c.store), OtherWrites(o))
  {
    hide Overwritten, ApplyWrites, RolePatch, BindingPatch, OfOrganization, OtherRules;
    var role := ClusterRole(OfOrganization(o.name, "other"));
    var rolePatch := RolePatch(OrganizationLabel(o), OrganizationOwner(o), OtherRules(o.name));
    var _ := c.CreateOrPatch(role, rolePatch);
    var binding := ClusterRoleBinding(OfOrganization(o.name, "others"));
    var bindingPatch := BindingPatch(OrganizationLabel(o), OrganizationOwner(o),
                                     RoleRef("", ToClusterRole, role.name), [Subject.Group(RBAC_GROUP, AUTHENTICATED)]);
    var _ := c.CreateOrPatch(binding, bindingPatch);
    ApplyPair(old(c.store), map[role := rolePatch], map[binding := bindingPatch]);
    assert map[role := rolePatch] + map[binding := bindingPatch] == OtherWrites(o);
  }

  /** The source dereferences the namespace reference; its caller has looked at it. */
  method ReconcileOrganizationAuthorization(c: Client, world: World, o: Organization)
    requires o.namespace.Some?
    modifies c
    ensures c.store == ApplyWrites(old(c.store), OrganizationWrites(world, o))
  {
    var members := InNamespace(world.members, o.namespace.value);
    ReconcileOrganizationSuperUser(c, world, o, o.namespace.value);
    ReconcileOrganizationReader(c, world, o, o.namespace.value);
    ReconcileOther(c, o);
    OrganizationWritesApart(o, members);
    ApplyPair(old(c.store), SuperUserWrites(o, members), ReaderWrites(o, members));
    ApplyPair(old(c.store), SuperUserWrites(o, members) + ReaderWrites(o, members), OtherWrites(o));
  }

  /** OrganizationReconciler.Reconcile, as far as it writes roles. */
  method ReconcileOrganization(c: Client, world: World, o: Organization)
    modifies c
    ensures c.store == ApplyWrites(old(c.store), OrganizationWrites(world, o))
    ensures o.namespace == None ==> c.store == old(c.store)
  {
    if o.namespace == None {
      return;
    }
    ReconcileOrganizationAuthorization(c, world, o);
  }

  method ReconcileClusterAuthorization(c: Client)
    modifies c
    ensures c.store == ApplyWrites(old(c.store), ClusterWrites())
  {
    hide Overwritten;
    FixedNamesApart();
    hide RolePatch, AggregatePatch, ReaderTier, UserTier, SuperUserTier, Dockyards, ApplyWrites;
    var reader, user, superUser := ClusterRole(Dockyards("reader")), ClusterRole(Dockyards("user")),
      ClusterRole(Dockyards("super-user"));
    var _ := c.CreateOrPatch(ClusterRole(AUTHENTICATED), AggregatePatch());
    ghost var first := c.store;
    var _ := c.CreateOrPatch(reader, RolePatch(KeepLabels, None, ReaderTier()));
    var _ := c.CreateOrPatch(user, RolePatch(KeepLabels, None, UserTier()));
    var _ := c.CreateOrPatch(superUser, RolePatch(KeepLabels, None, SuperUserTier()));
    ApplyThree(first, reader, RolePatch(KeepLabels, None, ReaderTier()), user, RolePatch(KeepLabels, None, UserTier()),
               superUser, RolePatch(KeepLabels, None, SuperUserTier()));
    ClusterWritesParts(old(c.store));
  }

  lemma ClusterWritesParts(store: Store)
    ensures ApplyWrites(store, ClusterWrites()) ==
      ApplyWrites(ApplyWrites(store, map[ClusterRole(AUTHENTICATED) := AggregatePatch()]),
                  map[ClusterRole(Dockyards("reader")) := RolePatch(KeepLabels, None, ReaderTier()),
                      ClusterRole(Dockyards("user")) := RolePatch(KeepLabels, None, UserTier()),
                      ClusterRole(Dockyards("super-user")) := RolePatch(KeepLabels, None, SuperUserTier())])
  {
    FixedNamesApart();
    hide RolePatch, AggregatePatch, ReaderTier, UserTier, SuperUserTier, Dockyards, ApplyWrites;
    var a := map[ClusterRole(AUTHENTICATED) := AggregatePatch()];
    var b := map[ClusterRole(Dockyards("reader")) := RolePatch(KeepLabels, None, ReaderTier()),
                 ClusterRole(Dockyards("user")) := RolePatch(KeepLabels, None, UserTier()),
                 ClusterRole(Dockyards("super-user")) := RolePatch(KeepLabels, None, SuperUserTier())];
    ApplyPair(store, a, b);
    assert a + b == ClusterWrites();
  }

  method ReconcileMemberAuthorization(c: Client, m: Member)
    modifies c
    ensures c.store == ApplyWrites(old(c.store), MemberWrites(m))
  {
    hide Overwritten;
    MemberNamesApart(m);
    hide MemberBinding, RolePatch, MemberLabel, MemberOwner, SelfRules, Dockyards, Join, ApplyWrites;
    var self, reader := Join(m.name, "self"), Join(m.name, "reader");
    var selfPatch := RolePatch(MemberLabel(m), MemberOwner(m), SelfRules(m.name));
    var _ := c.CreateOrPatch(Role(m.namespace, self), selfPatch);
    var _ := c.CreateOrPatch(RoleBinding(m.namespace, self), MemberBinding(m, ToRole, self));
    var _ := c.CreateOrPatch(RoleBinding(m.namespace, reader), MemberBinding(m, ToClusterRole, Dockyards("reader")));
    ApplyThree(old(c.store), Role(m.namespace, self), selfPatch, RoleBinding(m.namespace, self),
               MemberBinding(m, ToRole, self),
               RoleBinding(m.namespace, reader), MemberBinding(m, ToClusterRole, Dockyards("reader")));
    assert c.store == ApplyWrites(old(c.store), BaseWrites(m));
    if m.role == Reader {
      return;
    }
    var _ := c.CreateOrPatch(RoleBinding(m.namespace, Join(m.name, "user")),
                             MemberBinding(m, ToClusterRole, Dockyards("user")));
    ApplyPair(old(c.store), BaseWrites(m), TierWrites(m, "user"));
    if m.role == RegularUser {
      return;
    }
    var _ := c.CreateOrPatch(RoleBinding(m.namespace, Join(m.name, "super-user")),
                             MemberBinding(m, ToClusterRole, Dockyards("super-user")));
    ApplyPair(old(c.store), BaseWrites(m) + TierWrites(m, "user"), TierWrites(m, "super-user"));
  }

  method ReconcileUserAuthorization(c: Client, user: string)
    modifies c
    ensures c.store == ApplyWrites(old(c.store), UserWrites(user))
  {
    hide Overwritten;
    var _ := c.CreateOrPatch(ClusterRole(OfUser(user)),
                             RolePatch(SetLabels(map[LABEL_USER := user]), None, UserRules(user)));
    var _ := c.CreateOrPatch(ClusterRoleBinding(OfUser(user)),
                             BindingPatch(SetLabels(map[LABEL_USER := user]), None,
                                          RoleRef(RBAC_GROUP, ToClusterRole, OfUser(user)),
                                          [Subject.User(RBAC_GROUP, user)]));
  }

  lemma FixedNamesApart()
    ensures AUTHENTICATED == Dockyards("authenticated")
    ensures AUTHENTICATED != Dockyards("reader") && AUTHENTICATED != Dockyards("user")
      && AUTHENTICATED != Dockyards("super-user")
    ensures Dockyards("reader") != Dockyards("user") && Dockyards("user") != Dockyards("super-user")
    ensures Dockyards("reader") != Dockyards("super-user")
  {
    assert |AUTHENTICATED| == 23 && |Dockyards("reader")| == 16 && |Dockyards("user")| == 14
      && |Dockyards("super-user")| == 20;
  }

  /** Names of one organization or member have different lengths. */
  lemma OrganizationWritesApart(o: Organization, members: seq<Member>)
    ensures SuperUserWrites(o, members).Keys !! ReaderWrites(o, members).Keys
    ensures (SuperUserWrites(o, members) + ReaderWrites(o, members)).Keys !! OtherWrites(o).Keys
  {
    hide RolePatch, BindingPatch;
    assert |OfOrganization(o.name, "super-user")| == |o.name| + 21;
    assert |OfOrganization(o.name, "reader")| == |o.name| + 17;
    assert |OfOrganization(o.name, "other")| == |o.name| + 16;
    assert |OfOrganization(o.name, "super-users")| == |o.name| + 22;
    assert |OfOrganization(o.name, "readers")| == |o.name| + 18;
    assert |OfOrganization(o.name, "others")| == |o.name| + 17;
  }

  lemma MemberNamesApart(m: Member)
    ensures BaseWrites(m).Keys !! TierWrites(m, "user").Keys
    ensures (BaseWrites(m) + TierWrites(m, "user")).Keys !! TierWrites(m, "super-user").Keys
    ensures Join(m.name, "self") != Join(m.name, "reader")
  {
    hide MemberBinding, RolePatch;
    var n := |m.name|;
    assert |Join(m.name, "self")| == n + 5 && |Join(m.name, "reader")| == n + 7;
    assert |Join(m.name, "super-user")| == n + 11;
    assert Join(m.name, "user")[n + 1] == 'u' && Join(m.name, "self")[n + 1] == 's';
  }
}
