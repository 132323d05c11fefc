/** Kubernetes RBAC objects in a store keyed by name, and the decision that the RBAC authorizer takes
    from them. */
module Rbac {
  import opened Wrappers

  datatype Subject = User(apiGroup: string, name: string) | Group(apiGroup: string, name: string)
  datatype RefKind = ToClusterRole | ToRole
  datatype RoleRef = RoleRef(apiGroup: string, kind: RefKind, name: string)
  datatype PolicyRule = PolicyRule(verbs: seq<string>, apiGroups: seq<string>, resources: seq<string>,
                                   resourceNames: seq<string>)
  datatype OwnerReference = OwnerReference(apiVersion: string, kind: string, name: string, uid: nat)

  /** Every object has all the fields; a role leaves the binding fields empty and the other way around. */
  datatype Object = Object(labels: map<string, string>, owners: seq<OwnerReference>,
                           aggregation: seq<map<string, string>>,
                           rules: seq<PolicyRule>, roleRef: Option<RoleRef>, subjects: seq<Subject>)

  const EMPTY := Object(map[], [], [], [], None, [])

  datatype Key =
    | ClusterRole(name: string)
    | ClusterRoleBinding(name: string)
    | Role(namespace: string, name: string)
    | RoleBinding(namespace: string, name: string)

  type Store = map<Key, Object>

  function Lookup(store: Store, key: Key): Object {
    if key in store then store[key] else EMPTY
  }

  // ---------- the decision ----------

  /** `resource` is the resource, followed by a slash and the subresource if there is one. */
  datatype Request = Request(verb: string, apiGroup: string, resource: string, name: string, namespace: string)

  predicate Matches(values: seq<string>, value: string) {
    "*" in values || value in values
  }

  predicate RuleAllows(rule: PolicyRule, req: Request) {
    && Matches(rule.verbs, req.verb)
    && Matches(rule.apiGroups, req.apiGroup)
    && Matches(rule.resources, req.resource)
    && (rule.resourceNames == [] || req.name in rule.resourceNames)
  }

  predicate SubjectMatches(subject: Subject, user: string, groups: set<string>) {
    match subject
    case User(_, name) => name == user
    case Group(_, name) => name in groups
  }

  /** The rules that a binding refers to, if the role exists. A binding in a namespace can refer to a role
      of that namespace or to a cluster role. */
  function RulesOf(store: Store, ref: Option<RoleRef>, namespace: string): seq<PolicyRule> {
    match ref
    case None => []
    case Some(RoleRef(_, ToClusterRole, name)) => Lookup(store, ClusterRole(name)).rules
    case Some(RoleRef(_, ToRole, name)) => Lookup(store, Role(namespace, name)).rules
  }

  ghost predicate AnySubject(subjects: seq<Subject>, user: string, groups: set<string>) {
    exists s :: s in subjects && SubjectMatches(s, user, groups)
  }

  ghost predicate AnyRule(rules: seq<PolicyRule>, req: Request) {
    exists r :: r in rules && RuleAllows(r, req)
  }

  ghost predicate Grants(store: Store, binding: Key, user: string, groups: set<string>, req: Request) {
    && binding in store
    && AnySubject(store[binding].subjects, user, groups)
    && AnyRule(RulesOf(store, store[binding].roleRef, req.namespace), req)
  }

  ghost predicate Allowed(store: Store, user: string, groups: set<string>, req: Request) {
    || (exists name :: Grants(store, ClusterRoleBinding(name), user, groups, req))
    || (req.namespace != "" && exists name :: Grants(store, RoleBinding(req.namespace, name), user, groups, req))
  }

  // ---------- create or patch ----------

  datatype Labels = KeepLabels | SetLabels(labels: map<string, string>) | MergeLabel(key: string, value: string)

  /** What the callback of a CreateOrPatch overwrites; None leaves the field as it is. */
  datatype Patch = Patch(labels: Labels, owners: Option<seq<OwnerReference>>,
                         aggregation: Option<seq<map<string, string>>>,
                         rules: Option<seq<PolicyRule>>, roleRef: Option<RoleRef>, subjects: Option<seq<Subject>>)

  function Apply(p: Patch, o: Object): Object {
    Object(match p.labels
           case KeepLabels => o.labels
           case SetLabels(m) => m
           case MergeLabel(k, v) => o.labels[k := v],
           p.owners.GetOr(o.owners),
           p.aggregation.GetOr(o.aggregation),
           p.rules.GetOr(o.rules),
           if p.roleRef.Some? then p.roleRef else o.roleRef,
           p.subjects.GetOr(o.subjects))
  }

  lemma ApplyTwice(p: Patch, o: Object)
    ensures Apply(p, Apply(p, o)) == Apply(p, o)
  {
  }

  type Writes = map<Key, Patch>

  function ApplyWrites(store: Store, w: Writes): Store {
    map k | k in store.Keys + w.Keys :: if k in w then Apply(w[k], Lookup(store, k)) else store[k]
  }

  /** Two sets of writes that agree wherever both write. */
  ghost predicate Coherent(a: Writes, b: Writes) {
    forall k :: k in a && k in b ==> a[k] == b[k]
  }

  /** The store already holds what would be written. */
  ghost predicate Holds(store: Store, w: Writes) {
    forall k :: k in w ==> k in store && Apply(w[k], store[k]) == store[k]
  }

  lemma ApplyMerged(store: Store, a: Writes, b: Writes)
    requires Coherent(a, b)
    ensures ApplyWrites(ApplyWrites(store, a), b) == ApplyWrites(store, a + b)
  {
    var twice, once := ApplyWrites(ApplyWrites(store, a), b), ApplyWrites(store, a + b);
    assert twice.Keys == once.Keys;
    forall k | k in once ensures twice[k] == once[k] {
      if k in a && k in b {
        ApplyTwice(a[k], Lookup(store, k));
      }
    }
  }

  /** The fields that the patch gives hold what it gives, whatever was there before; all other fields and
      objects are as they were. Labels are kept, replaced, or replaced under one key. */
  ghost predicate Overwritten(before: Store, after: Store, key: Key, p: Patch) {
    && after.Keys == before.Keys + {key}
    && (forall k :: k in before && k != key ==> after[k] == before[k])
    && var was, now := if key in before then before[key] else EMPTY, after[key];
       && now.owners == (if p.owners.Some? then p.owners.value else was.owners)
       && now.aggregation == (if p.aggregation.Some? then p.aggregation.value else was.aggregation)
       && now.rules == (if p.rules.Some? then p.rules.value else was.rules)
       && now.subjects == (if p.subjects.Some? then p.subjects.value else was.subjects)
       && now.roleRef == (if p.roleRef.Some? then p.roleRef else was.roleRef)
       && (p.labels.KeepLabels? ==> now.labels == was.labels)
       && (p.labels.SetLabels? ==> now.labels == p.labels.labels)
       && (p.labels.MergeLabel? ==>
             && p.labels.key in now.labels && now.labels[p.labels.key] == p.labels.value
             && now.labels - {p.labels.key} == was.labels - {p.labels.key})
  }

  lemma ApplyOverwrites(store: Store, key: Key, p: Patch)
    ensures Overwritten(store, ApplyWrites(store, map[key := p]), key, p)
  {
  }

  datatype OperationResult = Created | Patched | Unchanged

  class Client {
    var store: Store

    constructor ()
      ensures store == map[]
    {
      store := map[];
    }

    /** controllerutil.CreateOrPatch: reads the object, lets the callback change it, and creates it or
        writes it back if it changed. */
    method CreateOrPatch(key: Key, p: Patch) returns (r: OperationResult)
      modifies this
      ensures store == ApplyWrites(old(store), map[key := p])
      ensures Overwritten(old(store), store, key, p)
      ensures r == Created <==> key !in old(store)
      ensures r == Unchanged <==> store == old(store)
    {
      ApplyOverwrites(store, key, p);
      if key !in store {
        store := store[key := Apply(p, EMPTY)];
        return Created;
      }
      var existing := store[key];
      var changed := Apply(p, existing);
      if changed == existing {
        assert store[key := changed] == store;
        return Unchanged;
      }
      store := store[key := changed];
      assert store[key] != old(store)[key];
      r := Patched;
    }
  }
}
