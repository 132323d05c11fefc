/** Users, verification requests, invitations and members: the objects, and what each handler, webhook
    and reconciliation makes of them, as functions on the state of the API server. */
module Identity {
  import opened Wrappers
  import BubbleBabble
  import Rbac
  import Authorization

  type MemberRole = Authorization.MemberRole

  // ---------- objects ----------

  datatype Status = True | False
  datatype Condition = Condition(status: Status, reason: string, message: string, lastTransition: nat)
  type Conditions = map<string, Condition>

  datatype User = User(uid: nat, email: string, password: string, providerID: string, hasVoucher: bool,
                       conditions: Conditions)

  datatype Owner = Owner(name: string, uid: nat)
  datatype Request = Request(uid: nat, created: nat, owner: Owner, code: string, subject: string, bodyText: string,
                             userRef: string, duration: Option<nat>, conditions: Conditions)

  datatype Invitation = Invitation(uid: nat, created: nat, email: string, role: MemberRole, duration: Option<int>)
  datatype Member = Member(uid: nat, role: MemberRole, user: string)
  datatype Name = Name(namespace: string, name: string)

  /** `memberRefs` is the deprecated list of members. */
  datatype Organization = Organization(namespace: Option<string>, memberRefs: seq<string>)

  /** What does not change in a run. `address` is the mail address parser, a library. */
  datatype Config = Config(publicNamespace: Option<string>, identityProviders: set<Name>,
                           address: string -> Option<string>,
                           allowedDomains: Option<seq<string>>)

  /** A reset that has consumed its request and has not yet come to its password. */
  datatype Reset = Reset(request: Request, password: string)

  /** Times are in seconds. Objects get their UIDs from one counter; `resets` is keyed by the UID of the
      consumed request. */
  datatype State = State(users: map<string, User>, requests: map<string, Request>, resets: map<nat, Reset>,
                         organizations: map<string, Organization>, invitations: map<Name, Invitation>,
                         members: map<Name, Member>,
                         rbac: Rbac.Store, now: nat, nextUid: nat)

  /** Nothing but organizations, which may have been there before. */
  function Init(organizations: map<string, Organization>): State {
    State(map[], map[], map[], organizations, map[], map[], map[], 0, 0)
  }

  /** Four random bytes, as drawn for 32 bits of entropy. */
  type Draw = bytes: seq<BubbleBabble.Byte> | |bytes| == 4 witness [0, 0, 0, 0]

  const DOCKYARDS := "dockyards://"
  const READY := "Ready"
  const VERIFIED := "Verified"
  const AUTHORIZED := "UserAuthorizationReady"
  const SIGN_UP_SECONDS := 1800
  const RESET_SECONDS := 600

  // ---------- strings ----------

  predicate HasPrefix(s: string, prefix: string) {
    |prefix| <= |s| && s[..|prefix|] == prefix
  }

  predicate HasSuffix(s: string, suffix: string) {
    |suffix| <= |s| && s[|s| - |suffix|..] == suffix
  }

  /** strings.Cut: what comes before the first separator. */
  function Before(s: string, separator: string): Option<string> {
    if HasPrefix(s, separator) then Some("")
    else if s == "" then None
    else match Before(s[1..], separator)
      case None => None
      case Some(rest) => Some([s[0]] + rest)
  }

  function SignUp(user: string): string {
    "sign-up-" + user
  }

  function PasswordReset(suffix: string): string {
    "password-reset-" + suffix
  }

  const SIGN_UP_TEXT := "Here is your email verification code: "
  const SIGN_UP_END := ".\nIf you have not created a dockyards account, you can ignore this email."
  const RESET_TEXT := "Here is your password reset code: "
  const RESET_END := ".\nIf you have not requested a password reset, you can ignore this email."

  function SignUpBody(code: string): string {
    SIGN_UP_TEXT + code + SIGN_UP_END
  }

  function ResetBody(code: string): string {
    RESET_TEXT + code + RESET_END
  }

  /** The item of a list that has exactly one. */
  function TheOnly<T(==,!new)>(xs: set<T>): (r: Option<T>)
    ensures forall x :: r == Some(x) <==> xs == {x}
  {
    if exists x :: x in xs && xs == {x} then
      var x :| x in xs && xs == {x};
      Some(x)
    else None
  }

  // ---------- conditions ----------

  /** meta.SetStatusCondition: the time of the last transition moves with the status only. */
  function SetCondition(conditions: Conditions, kind: string, c: Condition): Conditions {
    conditions[kind := if kind in conditions && conditions[kind].status == c.status
                       then c.(lastTransition := conditions[kind].lastTransition) else c]
  }

  predicate IsTrue(conditions: Conditions, kind: string) {
    kind in conditions && conditions[kind].status == True
  }

  // ---------- users ----------

  predicate IsDockyards(user: User) {
    HasPrefix(user.providerID, DOCKYARDS)
  }

  function UsersWithEmail(s: State, email: string): set<string> {
    set n | n in s.users && s.users[n].email == email
  }

  predicate DomainAllowed(cfg: Config, address: string, hasVoucher: bool) {
    || cfg.allowedDomains == None
    || hasVoucher
    || exists i :: 0 <= i < |cfg.allowedDomains.value| && HasSuffix(address, cfg.allowedDomains.value[i])
  }

  /** DockyardsUser.validate: the address parses, nobody else has it, and its domain is allowed. */
  predicate UserAdmitted(cfg: Config, s: State, user: User) {
    && cfg.address(user.email).Some?
    && (forall n :: n in UsersWithEmail(s, user.email) ==> s.users[n].uid == user.uid)
    && DomainAllowed(cfg, cfg.address(user.email).value, user.hasVoucher)
  }

  function CreateUser(cfg: Config, s: State, name: string, email: string, password: string, providerID: string,
                      hasVoucher: bool): (t: State)
    ensures t == s.(users := t.users, nextUid := t.nextUid) && s.nextUid <= t.nextUid
  {
    var user := User(s.nextUid, email, password, providerID, hasVoucher, map[]);
    if name in s.users || !UserAdmitted(cfg, s, user) then s
    else s.(users := s.users[name := user], nextUid := s.nextUid + 1)
  }

  /** Any update of a user's address or password passes the same webhook. */
  function PatchUser(cfg: Config, s: State, name: string, email: string, password: string): (t: State)
    ensures t == s.(users := t.users)
  {
    if name !in s.users then s
    else
      var user := s.users[name].(email := email, password := password);
      if !UserAdmitted(cfg, s, user) then s else s.(users := s.users[name := user])
  }

  // ---------- reconciling a user ----------

  /** The identity provider of a user from elsewhere must be known. */
  predicate ProviderKnown(cfg: Config, user: User) {
    && cfg.publicNamespace.Some?
    && Before(user.providerID, "://").Some?
    && Name(cfg.publicNamespace.value, Before(user.providerID, "://").value) in cfg.identityProviders
  }

  /** Two states that differ in the conditions of one user only. */
  ghost predicate OnlyConditions(s: State, t: State, name: string) {
    && name in s.users && name in t.users
    && t == s.(users := s.users[name := s.users[name].(conditions := t.users[name].conditions)])
  }

  function SetUserCondition(s: State, name: string, kind: string, c: Condition): (r: State)
    requires name in s.users
    ensures OnlyConditions(s, r, name) && r.users[name].conditions == SetCondition(s.users[name].conditions, kind, c)
  {
    s.(users := s.users[name := s.users[name].(conditions := SetCondition(s.users[name].conditions, kind, c))])
  }

  /** The first condition a user gets: verified by its provider, or not verified. */
  function Introduced(s: State, name: string): (r: State)
    requires name in s.users
    ensures OnlyConditions(s, r, name) && READY in r.users[name].conditions
  {
    if READY in s.users[name].conditions then s
    else if IsDockyards(s.users[name]) then SetUserCondition(s, name, READY, Condition(False, "NotVerified", "", s.now))
    else SetUserCondition(s, name, READY, Condition(True, "Verified", "Verified by OIDC", s.now))
  }

  /** The sign-up request after it has been created or patched. */
  function SignUpRequest(s: State, name: string, draw: Draw): Request
    requires name in s.users
  {
    var existing := if SignUp(name) in s.requests then s.requests[SignUp(name)]
                    else Request(s.nextUid, s.now, Owner(name, s.users[name].uid), "", "", "", "", None, map[]);
    var code := if existing.code == "" then BubbleBabble.Encode(draw) else existing.code;
    existing.(code := code, subject := "Email Verification", bodyText := SignUpBody(code), userRef := name,
              duration := Some(SIGN_UP_SECONDS))
  }

  function WithSignUpRequest(s: State, name: string, draw: Draw): (r: State)
    requires name in s.users
    ensures r.users == s.users && SignUp(name) in r.requests
  {
    s.(requests := s.requests[SignUp(name) := SignUpRequest(s, name, draw)],
       nextUid := if SignUp(name) in s.requests then s.nextUid else s.nextUid + 1)
  }

  /** A verified sign-up request makes its user ready. */
  function Verified(s: State, name: string): (r: State)
    requires name in s.users && SignUp(name) in s.requests
    ensures OnlyConditions(s, r, name)
  {
    var conditions := s.requests[SignUp(name)].conditions;
    if IsTrue(conditions, VERIFIED) then SetUserCondition(s, name, READY, conditions[VERIFIED]) else s
  }

  /** What is done for a user that is ready: its request goes, its roles are written. */
  function Settled(s: State, name: string): State
    requires name in s.users
  {
    var authorized := s.(requests := s.requests - {SignUp(name)},
                         rbac := Rbac.ApplyWrites(s.rbac, Authorization.UserWrites(name)));
    SetUserCondition(authorized, name, AUTHORIZED, Condition(True, "Ready", "", s.now))
  }

  /** UserReconciler.Reconcile. The pointer to the ready condition, taken before the verification of a user,
      may or may not show what the verification changes: `reread` says which. */
  function ReconcileUser(cfg: Config, s: State, name: string, draw: Draw, reread: bool): State {
    if name !in s.users then s
    else if !IsDockyards(s.users[name]) && !ProviderKnown(cfg, s.users[name]) then s
    else
      var s1 := Introduced(s, name);
      var wasReady := IsTrue(s1.users[name].conditions, READY);
      var s2 := AfterVerification(s1, name, draw);
      var isReady := if reread then IsTrue(s2.users[name].conditions, READY) else wasReady;
      if isReady then Settled(s2, name) else s2
  }

  /** Dockyards users that are not ready are verified by their sign-up request. */
  function AfterVerification(s: State, name: string, draw: Draw): (r: State)
    requires name in s.users
    ensures r.users.Keys == s.users.Keys
  {
    if IsDockyards(s.users[name]) && !IsTrue(s.users[name].conditions, READY)
    then Verified(WithSignUpRequest(s, name, draw), name) else s
  }

  // ---------- verification and passwords ----------

  function RequestsWithCode(s: State, code: string): set<string> {
    set n | n in s.requests && s.requests[n].code == code
  }

  function Expiration(r: Request): Option<nat> {
    if r.duration == None then None else Some(r.created + r.duration.value)
  }

  /** In time means: it expires, and not before now. */
  predicate InTime(s: State, r: Request) {
    Expiration(r).Some? && s.now <= Expiration(r).value
  }

  /** UpdateGlobalVerificationRequest: an account code that matches exactly one request, in time. */
  predicate CanVerify(s: State, isAccount: bool, code: string, name: string) {
    isAccount && RequestsWithCode(s, code) == {name} && InTime(s, s.requests[name])
  }

  function Verify(s: State, isAccount: bool, code: string): (t: State)
    ensures t == s.(requests := t.requests) && t.requests.Keys == s.requests.Keys
  {
    match TheOnly(RequestsWithCode(s, code))
    case Some(name) =>
      assert name in RequestsWithCode(s, code);
      if !CanVerify(s, isAccount, code, name) then s
      else
        var r := s.requests[name];
        var conditions := SetCondition(r.conditions, VERIFIED, Condition(True, "Verified", "Verified by code", s.now));
        s.(requests := s.requests[name := r.(conditions := conditions)])
    case None => s
  }

  /** CreateGlobalPasswordResetRequest; `suffix` is the generated part of the request's name. */
  function RequestReset(cfg: Config, s: State, address: string, draw: Draw, suffix: string): (t: State)
    ensures t == s.(requests := t.requests, nextUid := t.nextUid) && s.nextUid <= t.nextUid
  {
    if cfg.address(address) == None then s
    else match TheOnly(UsersWithEmail(s, cfg.address(address).value))
      case None => s
      case Some(name) =>
        assert name in UsersWithEmail(s, cfg.address(address).value);
        if s.users[name].providerID != DOCKYARDS || PasswordReset(suffix) in s.requests then s
        else
          var code := BubbleBabble.Encode(draw);
          var r := Request(s.nextUid, s.now, Owner(name, s.users[name].uid), code, "Password Reset", ResetBody(code),
                           name,
                           Some(RESET_SECONDS), map[]);
          s.(requests := s.requests[PasswordReset(suffix) := r], nextUid := s.nextUid + 1)
  }

  /** ResetPassword up to the deletion: any request with the code, of whatever kind, is used up first. */
  function ConsumeReset(s: State, code: string, password: string): (t: State)
    ensures t == s.(requests := t.requests, resets := t.resets)
  {
    match TheOnly(RequestsWithCode(s, code))
    case None => s
    case Some(name) =>
      assert name in RequestsWithCode(s, code);
      var r := s.requests[name];
      s.(requests := s.requests - {name}, resets := s.resets[r.uid := Reset(r, password)])
  }

  /** Whether a reset that has used up its request gets to write the password. */
  predicate ResetWrites(cfg: Config, s: State, uid: nat) {
    && uid in s.resets
    && InTime(s, s.resets[uid].request)
    && s.resets[uid].request.userRef in s.users
    && UserAdmitted(cfg, s, s.users[s.resets[uid].request.userRef].(password := s.resets[uid].password))
  }

  /** ResetPassword from the deletion on. */
  function FinishReset(cfg: Config, s: State, uid: nat): (t: State)
    ensures t == s.(users := t.users, resets := s.resets - {uid})
  {
    if uid !in s.resets then s
    else
      var done := s.(resets := s.resets - {uid});
      if !ResetWrites(cfg, s, uid) then done
      else
        var name := s.resets[uid].request.userRef;
        done.(users := s.users[name := s.users[name].(password := s.resets[uid].password)])
  }

  // ---------- invitations ----------

  function InvitationsFor(s: State, namespace: string, email: string): set<Name> {
    set k | k in s.invitations && k.namespace == namespace && s.invitations[k].email == email
  }

  /** The result of listing some objects: all of them, in some order. */
  ghost predicate Lists<T(!new)>(items: seq<T>, all: set<T>) {
    && (forall x :: x in items <==> x in all)
    && (forall i, j :: 0 <= i < j < |items| ==> items[i] != items[j])
  }

  /** Whether an organization of the namespace lists the user among its member references. */
  predicate ListedAsMember(organizations: map<string, Organization>, namespace: string, user: string) {
    exists o :: o in organizations && organizations[o].namespace == Some(namespace)
      && user in organizations[o].memberRefs
  }

  /** DockyardsInvitation.validate; `users` is the list of users with the address. */
  predicate InvitationAdmitted(cfg: Config, s: State, namespace: string, email: string, users: seq<string>) {
    && cfg.address(email).Some?
    && InvitationsFor(s, namespace, email) == {}
    && (users == [] || !ListedAsMember(s.organizations, namespace, users[0]))
  }

  /** DockyardsInvitation.ValidateUpdate: address and role are fixed, and the updated object passes the check
      for new ones. */
  predicate UpdateAdmitted(cfg: Config, s: State, key: Name, old_: Invitation, new_: Invitation, users: seq<string>) {
    old_.email == new_.email && old_.role == new_.role && InvitationAdmitted(cfg, s, key.namespace, new_.email, users)
  }

  function NamespaceOf(organizations: map<string, Organization>, organization: string): Option<string> {
    if organization in organizations then organizations[organization].namespace else None
  }

  /** CreateOrganizationInvitation; `suffix` is the generated part of the name. */
  function Invite(cfg: Config, s: State, organization: string, email: string, role: MemberRole, duration: Option<int>,
                  suffix: string, users: seq<string>): (t: State)
    ensures t == s.(invitations := t.invitations, nextUid := t.nextUid) && s.nextUid <= t.nextUid
  {
    match NamespaceOf(s.organizations, organization)
    case None => s
    case Some(namespace) =>
      var key := Name(namespace, "pending-" + suffix);
      if key in s.invitations || !InvitationAdmitted(cfg, s, namespace, email, users) then s
      else s.(invitations := s.invitations[key := Invitation(s.nextUid, s.now, email, role, duration)],
              nextUid := s.nextUid + 1)
  }

  function UpdateInvitation(cfg: Config, s: State, key: Name, new_: Invitation, users: seq<string>): (t: State)
    ensures t == s.(invitations := t.invitations)
  {
    if key !in s.invitations || !UpdateAdmitted(cfg, s, key, s.invitations[key], new_, users) then s
    else
      var existing := s.invitations[key];
      s.(invitations := s.invitations[key := new_.(uid := existing.uid, created := existing.created)])
  }

  function Uninvite(s: State, key: Name): State {
    s.(invitations := s.invitations - {key})
  }

  /** HasExpired: an invitation with a duration is past it. */
  predicate HasExpired(s: State, invitation: Invitation) {
    invitation.duration.Some? && s.now > invitation.created + invitation.duration.value
  }

  /** InvitationReconciler deletes what has expired. */
  function ExpireInvitation(s: State, key: Name): (t: State)
    ensures t == s.(invitations := t.invitations)
  {
    if key in s.invitations && HasExpired(s, s.invitations[key]) then Uninvite(s, key) else s
  }

  /** The one invitation of a subject to an organization, for accepting or declining it. */
  function InvitationOf(s: State, subject: string, organization: string): (r: Option<Name>)
    ensures r.Some? ==> r.value in s.invitations
    ensures r.Some? ==> NamespaceOf(s.organizations, organization) == Some(r.value.namespace)
  {
    if NamespaceOf(s.organizations, organization) == None || subject !in s.users then None
    else
      var keys := InvitationsFor(s, NamespaceOf(s.organizations, organization).value, s.users[subject].email);
      assert forall k :: keys == {k} ==> k in keys;
      TheOnly(keys)
  }

  /** UpdateGlobalInvitation: the member first, then the invitation. The member is named after the subject;
      the API server creates no object without a name and none with a name that is taken. */
  function Accept(s: State, subject: string, organization: string): (t: State)
    ensures t == s.(invitations := t.invitations, members := t.members, nextUid := t.nextUid) && s.nextUid <= t.nextUid
  {
    match InvitationOf(s, subject, organization)
    case None => s
    case Some(key) =>
      var member := Name(NamespaceOf(s.organizations, organization).value, subject);
      if member in s.members || subject == "" then s
      else
        s.(members := s.members[member := Member(s.nextUid, s.invitations[key].role, subject)],
           invitations := s.invitations - {key},
           nextUid := s.nextUid + 1)
  }

  /** DeleteGlobalInvitation. */
  function Decline(s: State, subject: string, organization: string): (t: State)
    ensures t == s.(invitations := t.invitations)
  {
    match InvitationOf(s, subject, organization)
    case None => s
    case Some(key) => Uninvite(s, key)
  }

  // ---------- organizations and members ----------

  function OrganizationName(suffix: string): string {
    "dockyards-" + suffix
  }

  /** CreateGlobalOrganization: an organization with a namespace of its own, whose generated name it shares,
      and the creator as its first member; `suffix` is the generated part. */
  function FoundOrganization(s: State, subject: string, suffix: string): (t: State)
    ensures t == s.(organizations := t.organizations, members := t.members, nextUid := t.nextUid)
      && s.nextUid <= t.nextUid
  {
    var name := OrganizationName(suffix);
    if subject !in s.users || name in s.organizations then s
    else if exists o :: o in s.organizations && s.organizations[o].namespace == Some(name) then s
    else
      var founded := s.(organizations := s.organizations[name := Organization(Some(name), [])]);
      var member := Name(name, subject);
      if member in s.members || subject == "" then founded
      else founded.(members := s.members[member := Member(s.nextUid, Authorization.SuperUser, subject)],
                    nextUid := s.nextUid + 1)
  }

  /** DeleteOrganizationMember. */
  function RemoveMember(s: State, key: Name): State {
    s.(members := s.members - {key})
  }

  /** An update of a member through the API server, whose webhook keeps the user of a member as it is. */
  function ChangeRole(s: State, key: Name, role: MemberRole): (t: State)
    ensures t == s.(members := t.members)
  {
    if key !in s.members then s else s.(members := s.members[key := s.members[key].(role := role)])
  }

  // ---------- steps ----------

  datatype Step =
    | DoCreateUser(name: string, email: string, password: string, providerID: string, hasVoucher: bool)
    | DoPatchUser(name: string, email: string, password: string)
    | DoReconcile(name: string, draw: Draw, reread: bool)
    | DoVerify(isAccount: bool, code: string)
    | DoRequestReset(address: string, draw: Draw, suffix: string)
    | DoConsumeReset(code: string, password: string)
    | DoFinishReset(uid: nat)
    | DoInvite(organization: string, email: string, role: MemberRole, duration: Option<int>, suffix: string,
               users: seq<string>)
    | DoUpdateInvitation(key: Name, invitation: Invitation, users: seq<string>)
    | DoDeleteInvitation(key: Name)
    | DoExpireInvitation(key: Name)
    | DoAccept(subject: string, organization: string)
    | DoDecline(subject: string, organization: string)
    | DoFoundOrganization(subject: string, suffix: string)
    | DoRemoveMember(key: Name)
    | DoChangeRole(key: Name, role: MemberRole)
    | DoTick(seconds: nat)

  /** Only lists must be what the store holds; everything else a step may try at any time. */
  ghost predicate Enabled(s: State, step: Step) {
    match step
    case DoInvite(_, email, _, _, _, users) => Lists(users, UsersWithEmail(s, email))
    case DoUpdateInvitation(_, invitation, users) => Lists(users, UsersWithEmail(s, invitation.email))
    case _ => true
  }

  function Next(cfg: Config, s: State, step: Step): State {
    match step
    case DoCreateUser(name, email, password, providerID, hasVoucher) =>
      CreateUser(cfg, s, name, email, password, providerID, hasVoucher)
    case DoPatchUser(name, email, password) => PatchUser(cfg, s, name, email, password)
    case DoReconcile(name, draw, reread) => ReconcileUser(cfg, s, name, draw, reread)
    case DoVerify(isAccount, code) => Verify(s, isAccount, code)
    case DoRequestReset(address, draw, suffix) => RequestReset(cfg, s, address, draw, suffix)
    case DoConsumeReset(code, password) => ConsumeReset(s, code, password)
    case DoFinishReset(uid) => FinishReset(cfg, s, uid)
    case DoInvite(organization, email, role, duration, suffix, users) =>
      Invite(cfg, s, organization, email, role, duration, suffix, users)
    case DoUpdateInvitation(key, invitation, users) => UpdateInvitation(cfg, s, key, invitation, users)
    case DoDeleteInvitation(key) => Uninvite(s, key)
    case DoExpireInvitation(key) => ExpireInvitation(s, key)
    case DoAccept(subject, organization) => Accept(s, subject, organization)
    case DoDecline(subject, organization) => Decline(s, subject, organization)
    case DoFoundOrganization(subject, suffix) => FoundOrganization(s, subject, suffix)
    case DoRemoveMember(key) => RemoveMember(s, key)
    case DoChangeRole(key, role) => ChangeRole(s, key, role)
    case DoTick(seconds) => s.(now := s.now + seconds)
  }
}
