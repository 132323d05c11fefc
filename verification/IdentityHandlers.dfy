/** The API server and the handlers, webhooks and reconciler that work on it, step by step. Each one takes
    the server from a state to the state that its function in module Identity gives. */
module IdentityHandlers {
  import opened Wrappers
  import opened Identity
  import BubbleBabble
  import Rbac
  import Authorization

  datatype Failure = NotFound | Unnamed | Unauthorized(reason: string) | Refused(denial: Denial) | AlreadyExists
    | NoNamespace | InvalidEmail | NoExpiration | External

  /** Why a webhook denies an object. */
  datatype Denial = InvalidAddress | AddressTaken | DomainForbidden | Immutable(fields: seq<string>) | AlreadyInvited
    | AlreadyMember

  // ---------- lists ----------

  /** Listing objects: all of them, in whatever order. */
  method InSomeOrder<T(!new,==)>(all: set<T>) returns (items: seq<T>)
    ensures Lists(items, all)
  {
    items := [];
    var rest := all;
    while rest != {}
      invariant rest <= all && Lists(items, all - rest)
      decreases rest
    {
      var x :| x in rest;
      assert x !in items;
      items, rest := items + [x], rest - {x};
    }
  }

  /** The two checks on the length of a list find out whether there is exactly one item. */
  lemma OneItem<T(!new)>(items: seq<T>, all: set<T>)
    requires Lists(items, all)
    ensures |items| == 1 ==> all == {items[0]} && TheOnly(all) == Some(items[0])
    ensures |items| == 0 <==> all == {}
    ensures |items| != 1 ==> TheOnly(all) == None
  {
    if items != [] {
      assert items[0] in all;
    }
    if |items| > 1 {
      assert items[0] != items[1] && items[1] in all;
    }
  }

  // ---------- webhooks ----------

  /** DockyardsUser.validate, on the list of users with the address. */
  function ValidateUser(cfg: Config, user: User, listed: seq<User>): Option<Denial> {
    match cfg.address(user.email)
    case None => Some(InvalidAddress)
    case Some(address) =>
      if exists i :: 0 <= i < |listed| && listed[i].uid != user.uid then Some(AddressTaken)
      else if cfg.allowedDomains == None then None
      else if user.hasVoucher then None
      else if exists i :: 0 <= i < |cfg.allowedDomains.value| && HasSuffix(address, cfg.allowedDomains.value[i]) then
        None
      else Some(DomainForbidden)
  }

  function Objects(users: map<string, User>, names: seq<string>): seq<User>
    requires forall n :: n in names ==> n in users
  {
    seq(|names|, i requires 0 <= i < |names| => assert names[i] in names; users[names[i]])
  }

  /** Whatever the order of the list, the webhook admits the same users. */
  lemma ValidateUserIs(cfg: Config, s: State, user: User, names: seq<string>)
    requires Lists(names, UsersWithEmail(s, user.email))
    ensures forall n :: n in names ==> n in s.users
    ensures ValidateUser(cfg, user, Objects(s.users, names)) == None <==> UserAdmitted(cfg, s, user)
  {
    hide HasSuffix;
    assert forall n :: n in names ==> n in UsersWithEmail(s, user.email);
    var listed := Objects(s.users, names);
    if UserAdmitted(cfg, s, user) {
      forall i | 0 <= i < |listed| ensures listed[i].uid == user.uid {
        assert names[i] in UsersWithEmail(s, user.email);
      }
    } else if forall i :: 0 <= i < |listed| ==> listed[i].uid == user.uid {
      forall n | n in UsersWithEmail(s, user.email) ensures s.users[n].uid == user.uid {
        assert n in names;
        var i :| 0 <= i < |names| && names[i] == n;
        assert listed[i].uid == user.uid;
      }
    }
  }

  /** DockyardsInvitation.validate, on the lists of invitations and users with the address. */
  function ValidateInvitation(cfg: Config, organizations: map<string, Organization>, namespace: string, email: string,
                              invited: seq<Name>, users: seq<string>): Option<Denial> {
    if cfg.address(email) == None then Some(InvalidAddress)
    else if |invited| != 0 then Some(AlreadyInvited)
    else if |users| == 0 then None
    else if ListedAsMember(organizations, namespace, users[0]) then Some(AlreadyMember)
    else None
  }

  const IMMUTABLE := ["spec.email", "spec.role"]

  function RoleText(role: MemberRole): string {
    match role
    case SuperUser => "SuperUser"
    case RegularUser => "User"
    case Reader => "Reader"
  }

  function FieldOf(invitation: Invitation, i: nat): string
    requires i < |IMMUTABLE|
  {
    if i == 0 then invitation.email else RoleText(invitation.role)
  }

  /** The immutable fields in which two invitations differ, out of the first `n`. */
  function Changed(a: Invitation, b: Invitation, n: nat): seq<string>
    requires n <= |IMMUTABLE|
  {
    if n == 0 then []
    else Changed(a, b, n - 1) + if FieldOf(a, n - 1) != FieldOf(b, n - 1) then [IMMUTABLE[n - 1]] else []
  }

  lemma NothingChanged(a: Invitation, b: Invitation)
    ensures Changed(a, b, |IMMUTABLE|) == [] <==> a.email == b.email && a.role == b.role
    ensures "spec.email" in Changed(a, b, |IMMUTABLE|) <==> a.email != b.email
    ensures "spec.role" in Changed(a, b, |IMMUTABLE|) <==> a.role != b.role
  {
    assert |"spec.email"| == 10 && |"spec.role"| == 9;
    assert Changed(a, b, 0) == [];
    assert Changed(a, b, 1) == Changed(a, b, 0) + if a.email != b.email then ["spec.email"] else [];
    assert Changed(a, b, 2) == Changed(a, b, 1) + if RoleText(a.role) != RoleText(b.role) then ["spec.role"] else [];
    assert RoleText(Authorization.SuperUser)[0] == 'S' && RoleText(Authorization.RegularUser)[0] == 'U'
      && RoleText(Authorization.Reader)[0] == 'R';
  }

  class Server {
    const cfg: Config
    const rbac: Rbac.Client
    var users: map<string, User>
    var requests: map<string, Request>
    var resets: map<nat, Reset>
    var organizations: map<string, Organization>
    var invitations: map<Name, Invitation>
    var members: map<Name, Member>
    var now: nat
    var nextUid: nat

    ghost function State(): Identity.State
      reads this, rbac
    {
      Identity.State.State(users, requests, resets, organizations, invitations, members, rbac.store, now, nextUid)
    }

    constructor (cfg: Config)
      ensures this.cfg == cfg && fresh(rbac) && State() == Init(map[])
    {
      this.cfg := cfg;
      rbac := new Rbac.Client();
      users, requests, resets, organizations, invitations, members := map[], map[], map[], map[], map[], map[];
      now, nextUid := 0, 0;
    }

    // ---------- users ----------

    /** DockyardsUser.ValidateCreate and ValidateUpdate. */
    method ValidateUserObject(user: User) returns (denial: Option<Denial>)
      ensures denial == None <==> UserAdmitted(cfg, State(), user)
    {
      var names := InSomeOrder(set n | n in users && users[n].email == user.email);
      assert Lists(names, UsersWithEmail(State(), user.email));
      ValidateUserIs(cfg, State(), user, names);
      denial := ValidateUser(cfg, user, Objects(users, names));
    }

    method CreateUser(name: string, email: string, password: string, providerID: string, hasVoucher: bool)
      returns (failure: Option<Failure>)
      modifies this
      ensures State() == Identity.CreateUser(cfg, old(State()), name, email, password, providerID, hasVoucher)
      ensures failure == None <==> name in users && name !in old(users)
    {
      if name in users {
        return Some(AlreadyExists);
      }
      var user := User(nextUid, email, password, providerID, hasVoucher, map[]);
      var denial := ValidateUserObject(user);
      if denial.Some? {
        return Some(Refused(denial.value));
      }
      users, nextUid := users[name := user], nextUid + 1;
      failure := None;
    }

    method PatchUser(name: string, email: string, password: string) returns (failure: Option<Failure>)
      modifies this
      ensures State() == Identity.PatchUser(cfg, old(State()), name, email, password)
      ensures failure == None ==> name in users && users[name].email == email && users[name].password == password
      ensures failure != None ==> State() == old(State())
    {
      if name !in users {
        return Some(NotFound);
      }
      var user := users[name].(email := email, password := password);
      var denial := ValidateUserObject(user);
      if denial.Some? {
        return Some(Refused(denial.value));
      }
      users := users[name := user];
      failure := None;
    }

    // ---------- UserReconciler ----------

    method SetStatus(name: string, kind: string, c: Condition)
      requires name in users
      modifies this
      ensures State() == SetUserCondition(old(State()), name, kind, c)
    {
      var user := users[name];
      user := user.(conditions := SetCondition(user.conditions, kind, c));
      users := users[name := user];
    }

    method ReconcileVerificationRequest(name: string, draw: Draw) returns (request: Request)
      requires name in users
      modifies this
      ensures State() == WithSignUpRequest(old(State()), name, draw)
      ensures SignUp(name) in requests && requests[SignUp(name)] == request
      ensures request.userRef == name && request.duration == Some(1800) && request.subject == "Email Verification"
      ensures request.bodyText == SIGN_UP_TEXT + request.code + SIGN_UP_END
      ensures if SignUp(name) in old(requests) && old(requests)[SignUp(name)].code != ""
        then request.code == old(requests)[SignUp(name)].code
        else BubbleBabble.Decode(request.code) == Some(draw)
    {
      if SignUp(name) in requests {
        request := requests[SignUp(name)];
      } else {
        request := Request(nextUid, now, Owner(name, users[name].uid), "", "", "", "", None, map[]);
        nextUid := nextUid + 1;
      }
      BubbleBabble.DecodeInvertsEncode(draw, BubbleBabble.Encode(draw));
      hide BubbleBabble.Decode, BubbleBabble.Encode, SignUp;
      assert SIGN_UP_SECONDS == 1800;
      request := request.(subject := "Email Verification", userRef := name, duration := Some(SIGN_UP_SECONDS));
      if request.code == "" {
        request := request.(code := BubbleBabble.Encode(draw));
      }
      request := request.(bodyText := SignUpBody(request.code));
      requests := requests[SignUp(name) := request];
    }

    method ReconcileUserVerification(name: string, draw: Draw)
      requires name in users
      modifies this
      ensures State() == Verified(WithSignUpRequest(old(State()), name, draw), name)
    {
      hide WithSignUpRequest, SignUp;
      var request := ReconcileVerificationRequest(name, draw);
      if VERIFIED in request.conditions && request.conditions[VERIFIED].status == True {
        SetStatus(name, READY, request.conditions[VERIFIED]);
      }
    }

    method ReconcileNonDockyardsProvidedUser(name: string) returns (ok: bool)
      requires name in users && !IsDockyards(users[name])
      modifies this
      ensures ok == ProviderKnown(cfg, old(users[name]))
      ensures State() == if ok then Introduced(old(State()), name) else old(State())
    {
      hide IsDockyards;
      if cfg.publicNamespace == None {
        return false;
      }
      var providerName := Before(users[name].providerID, "://");
      if providerName == None {
        return false;
      }
      if Name(cfg.publicNamespace.value, providerName.value) !in cfg.identityProviders {
        return false;
      }
      if READY in users[name].conditions {
        return true;
      }
      SetStatus(name, READY, Condition(True, "Verified", "Verified by OIDC", now));
      ok := true;
    }

    /** What Reconcile does for a user with a true ready condition. */
    method Settle(name: string)
      requires name in users
      modifies this, rbac
      ensures State() == Settled(old(State()), name)
    {
      hide SetUserCondition, SetCondition, SignUp, Rbac.ApplyWrites, Authorization.UserWrites;
      requests := requests - {SignUp(name)};
      Authorization.ReconcileUserAuthorization(rbac, name);
      SetStatus(name, AUTHORIZED, Condition(True, "Ready", "", now));
    }

    /** The ready condition is looked up in the user's conditions; what it points to may be what
        ReconcileUserVerification leaves there, or what was there before. */
    method ReconcileUser(name: string, draw: Draw, reread: bool) returns (ok: bool)
      modifies this, rbac
      ensures State() == Identity.ReconcileUser(cfg, old(State()), name, draw, reread)
      ensures !ok ==> State() == old(State())
    {
      if name !in users {
        return true;
      }
      var dockyards := IsDockyards(users[name]);
      if !dockyards {
        ok := ReconcileNonDockyardsProvidedUser(name);
        if !ok {
          return;
        }
      }
      hide IsDockyards, ProviderKnown, WithSignUpRequest, Verified, SetUserCondition, SetCondition, Settled;
      if READY !in users[name].conditions {
        SetStatus(name, READY, Condition(False, "NotVerified", "", now));
      }
      assert State() == Introduced(old(State()), name);
      var readyCondition := users[name].conditions[READY];
      hide Introduced;
      if dockyards {
        if readyCondition.status == False {
          ReconcileUserVerification(name, draw);
        }
      }
      if reread {
        readyCondition := users[name].conditions[READY];
      }
      if readyCondition.status == True {
        Settle(name);
      }
      ok := true;
    }

    // ---------- verification and passwords ----------

    method ListRequests(code: string) returns (items: seq<string>)
      ensures Lists(items, RequestsWithCode(State(), code))
    {
      items := InSomeOrder(set n | n in requests && requests[n].code == code);
    }

    method UpdateGlobalVerificationRequest(isAccount: bool, code: string) returns (failure: Option<Failure>)
      modifies this
      ensures State() == Verify(old(State()), isAccount, code)
      ensures failure == None <==> exists name :: CanVerify(old(State()), isAccount, code, name)
      ensures failure == None ==> exists name :: CanVerify(old(State()), isAccount, code, name)
                                                 && name in requests && IsTrue(requests[name].conditions, VERIFIED)
    {
      if !isAccount {
        return Some(Unauthorized("invalid verification type"));
      }
      var items := ListRequests(code);
      OneItem(items, RequestsWithCode(State(), code));
      if |items| == 0 {
        return Some(Unauthorized("could not find verification request"));
      }
      if |items| > 1 {
        return Some(Unauthorized("unexpected multiple verification requests with the same code"));
      }
      var request := requests[items[0]];
      var expiresAt := Expiration(request);
      if expiresAt == None {
        return Some(Unauthorized("account verification request needs an expiration"));
      }
      if now > expiresAt.value {
        return Some(Unauthorized("verification request has expired"));
      }
      assert CanVerify(State(), isAccount, code, items[0]);
      request := request.(conditions := SetCondition(request.conditions, VERIFIED,
                                                     Condition(True, "Verified", "Verified by code", now)));
      requests := requests[items[0] := request];
      assert IsTrue(requests[items[0]].conditions, VERIFIED);
      failure := None;
    }

    /** ResetPassword up to the deletion of the request, which is then only known to the handler. */
    method BeginReset(code: string, newPassword: string) returns (uid: Option<nat>)
      modifies this
      ensures State() == ConsumeReset(old(State()), code, newPassword)
      ensures match TheOnly(RequestsWithCode(old(State()), code))
        case None => uid == None
        case Some(name) => assert name in RequestsWithCode(old(State()), code); uid == Some(old(requests)[name].uid)
      ensures uid.Some? ==>
        && uid.value in resets
        && resets[uid.value].password == newPassword
        && resets[uid.value].request.code == code
    {
      var items := ListRequests(code);
      OneItem(items, RequestsWithCode(State(), code));
      if |items| == 0 || |items| > 1 {
        return None;
      }
      assert items[0] in RequestsWithCode(State(), code);
      var request := requests[items[0]];
      requests := requests - {items[0]};
      resets := resets[request.uid := Reset(request, newPassword)];
      uid := Some(request.uid);
    }

    /** ResetPassword after the deletion of the request. */
    method EndReset(uid: nat) returns (failure: Option<Failure>)
      requires uid in resets
      modifies this
      ensures State() == FinishReset(cfg, old(State()), uid)
      ensures failure == None <==> ResetWrites(cfg, old(State()), uid)
    {
      hide UserAdmitted;
      var request, newPassword := resets[uid].request, resets[uid].password;
      ghost var before := State();
      resets := resets - {uid};
      var expiresAt := Expiration(request);
      if expiresAt == None {
        return Some(NoExpiration);
      }
      if now > expiresAt.value {
        return Some(Unauthorized("verification request has expired"));
      }
      if request.userRef !in users {
        return Some(NotFound);
      }
      var user := users[request.userRef].(password := newPassword);
      var denial := ValidateUserObject(user);
      assert denial == None <==> UserAdmitted(cfg, before, user) by {
        SameUsersAdmitAlike(cfg, before, State(), user);
      }
      if denial.Some? {
        return Some(Refused(denial.value));
      }
      users := users[request.userRef := user];
      failure := None;
    }

    /** Without another step in between, a reset is used up and, unless it is too late or its user is gone
        or not admitted any more, written. */
    method ResetPassword(code: string, newPassword: string) returns (failure: Option<Failure>)
      modifies this
      ensures match TheOnly(RequestsWithCode(old(State()), code))
        case None => State() == old(State()) && failure.Some?
        case Some(name) =>
          assert name in RequestsWithCode(old(State()), code);
          var consumed, uid := ConsumeReset(old(State()), code, newPassword), old(requests)[name].uid;
          State() == FinishReset(cfg, consumed, uid) && (failure == None <==> ResetWrites(cfg, consumed, uid))
    {
      hide FinishReset, ResetWrites;
      var uid := BeginReset(code, newPassword);
      if uid == None {
        return Some(NotFound);
      }
      failure := EndReset(uid.value);
    }

    method CreateGlobalPasswordResetRequest(address: string, draw: Draw, suffix: string)
      returns (failure: Option<Failure>)
      modifies this
      ensures State() == RequestReset(cfg, old(State()), address, draw, suffix)
      ensures cfg.address(address).Some? && UsersWithEmail(old(State()), cfg.address(address).value) == {} ==>
        failure == None
    {
      var email := cfg.address(address);
      if email == None {
        return Some(InvalidEmail);
      }
      var items := InSomeOrder(set n | n in users && users[n].email == email.value);
      assert Lists(items, UsersWithEmail(State(), email.value));
      OneItem(items, UsersWithEmail(State(), email.value));
      if |items| == 0 {
        return None;
      }
      if |items| > 1 {
        return Some(Unauthorized("unexpected multiple users with the same email"));
      }
      assert items[0] in UsersWithEmail(State(), email.value);
      var user := users[items[0]];
      if user.providerID != DOCKYARDS {
        return Some(External);
      }
      var resetCode := BubbleBabble.Encode(draw);
      if PasswordReset(suffix) in requests {
        return Some(AlreadyExists);
      }
      var request := Request(nextUid, now, Owner(items[0], user.uid), resetCode, "Password Reset",
                             ResetBody(resetCode), items[0],
                             Some(RESET_SECONDS), map[]);
      requests, nextUid := requests[PasswordReset(suffix) := request], nextUid + 1;
      failure := None;
    }

    // ---------- invitations ----------

    method ListInvitations(namespace: string, email: string) returns (items: seq<Name>)
      ensures Lists(items, InvitationsFor(State(), namespace, email))
    {
      items := InSomeOrder(set k | k in invitations && k.namespace == namespace && invitations[k].email == email);
    }

    /** DockyardsInvitation.ValidateCreate. The list of users comes in the order of `users`. */
    method ValidateInvitationCreate(namespace: string, email: string, users: seq<string>)
      returns (denial: Option<Denial>)
      requires Lists(users, UsersWithEmail(State(), email))
      ensures denial == None <==> InvitationAdmitted(cfg, State(), namespace, email, users)
      ensures !denial.Some? || !denial.value.Immutable?
    {
      hide ListedAsMember;
      var invited := ListInvitations(namespace, email);
      OneItem(invited, InvitationsFor(State(), namespace, email));
      denial := ValidateInvitation(cfg, organizations, namespace, email, invited, users);
    }

    /** DockyardsInvitation.ValidateUpdate. */
    method ValidateInvitationUpdate(key: Name, old_: Invitation, new_: Invitation, users: seq<string>)
      returns (denial: Option<Denial>)
      requires Lists(users, UsersWithEmail(State(), new_.email))
      ensures denial == None <==> UpdateAdmitted(cfg, State(), key, old_, new_, users)
      ensures Changed(old_, new_, |IMMUTABLE|) != [] <==> denial == Some(Immutable(Changed(old_, new_, |IMMUTABLE|)))
    {
      NothingChanged(old_, new_);
      hide InvitationAdmitted, FieldOf;
      var errs := [];
      for i := 0 to |IMMUTABLE|
        invariant errs == Changed(old_, new_, i)
      {
        if FieldOf(old_, i) != FieldOf(new_, i) {
          errs := errs + [IMMUTABLE[i]];
        }
      }
      if |errs| > 0 {
        return Some(Immutable(errs));
      }
      denial := ValidateInvitationCreate(key.namespace, new_.email, users);
    }

    method CreateOrganizationInvitation(organization: string, email: string, role: MemberRole, duration: Option<int>,
                                        suffix: string, users: seq<string>) returns (failure: Option<Failure>)
      requires Lists(users, UsersWithEmail(State(), email))
      modifies this
      ensures State() == Invite(cfg, old(State()), organization, email, role, duration, suffix, users)
      ensures failure == None <==> invitations != old(invitations)
    {
      hide InvitationAdmitted;
      var namespace := NamespaceOf(organizations, organization);
      if namespace == None {
        return Some(NoNamespace);
      }
      var key := Name(namespace.value, "pending-" + suffix);
      if key in invitations {
        return Some(AlreadyExists);
      }
      var denial := ValidateInvitationCreate(namespace.value, email, users);
      if denial.Some? {
        return Some(Refused(denial.value));
      }
      invitations, nextUid := invitations[key := Invitation(nextUid, now, email, role, duration)], nextUid + 1;
      assert key in invitations;
      failure := None;
    }

    /** Any update of an invitation through the API server. */
    method PatchInvitation(key: Name, new_: Invitation, users: seq<string>) returns (failure: Option<Failure>)
      requires Lists(users, UsersWithEmail(State(), new_.email))
      modifies this
      ensures State() == UpdateInvitation(cfg, old(State()), key, new_, users)
    {
      hide UpdateAdmitted;
      if key !in invitations {
        return Some(NotFound);
      }
      var existing := invitations[key];
      var denial := ValidateInvitationUpdate(key, existing, new_, users);
      if denial.Some? {
        return Some(Refused(denial.value));
      }
      invitations := invitations[key := new_.(uid := existing.uid, created := existing.created)];
      failure := None;
    }

    method DeleteOrganizationInvitation(organization: string, name: string) returns (failure: Option<Failure>)
      modifies this
      ensures failure == None <==>
        && NamespaceOf(organizations, organization).Some?
        && Name(NamespaceOf(organizations, organization).value, name) in old(invitations)
      ensures State() ==
        if failure == None then Uninvite(old(State()), Name(NamespaceOf(organizations, organization).value, name))
        else old(State())
    {
      var namespace := NamespaceOf(organizations, organization);
      if namespace == None {
        return Some(NoNamespace);
      }
      if Name(namespace.value, name) !in invitations {
        return Some(NotFound);
      }
      invitations := invitations - {Name(namespace.value, name)};
      failure := None;
    }

    /** InvitationReconciler.Reconcile. */
    method ReconcileInvitation(key: Name)
      modifies this
      ensures State() == ExpireInvitation(old(State()), key)
    {
      if key !in invitations {
        return;
      }
      var invitation := invitations[key];
      if invitation.duration.Some? && now > invitation.created + invitation.duration.value {
        invitations := invitations - {key};
      }
    }

    /** The part that accepting and declining have in common. */
    method FindGlobalInvitation(subject: string, organization: string) returns (r: Result<Name, Failure>)
      ensures InvitationOf(State(), subject, organization) == if r.Ok? then Some(r.value) else None
    {
      var namespace := NamespaceOf(organizations, organization);
      if namespace == None {
        return Err(NoNamespace);
      }
      if subject !in users {
        return Err(NotFound);
      }
      var items := ListInvitations(namespace.value, users[subject].email);
      OneItem(items, InvitationsFor(State(), namespace.value, users[subject].email));
      if |items| != 1 {
        return Err(Unauthorized("unexpected invitations count"));
      }
      r := Ok(items[0]);
    }

    method UpdateGlobalInvitation(subject: string, organization: string) returns (failure: Option<Failure>)
      modifies this
      ensures State() == Accept(old(State()), subject, organization)
      ensures failure != None ==> State() == old(State())
    {
      hide InvitationOf;
      var found := FindGlobalInvitation(subject, organization);
      if found.Err? {
        return Some(found.error);
      }
      var invitation := invitations[found.value];
      var member := Name(NamespaceOf(organizations, organization).value, subject);
      if subject == "" {
        return Some(Unnamed);
      }
      if member in members {
        return Some(AlreadyExists);
      }
      members, nextUid := members[member := Member(nextUid, invitation.role, subject)], nextUid + 1;
      invitations := invitations - {found.value};
      failure := None;
    }

    method DeleteGlobalInvitation(subject: string, organization: string) returns (failure: Option<Failure>)
      modifies this
      ensures State() == Decline(old(State()), subject, organization)
      ensures failure == None <==> InvitationOf(old(State()), subject, organization).Some?
    {
      hide InvitationOf;
      var found := FindGlobalInvitation(subject, organization);
      if found.Err? {
        return Some(found.error);
      }
      invitations := invitations - {found.value};
      failure := None;
    }

    // ---------- organizations and members ----------

    /** The namespace gets a generated name, here one that no organization has or uses. */
    method CreateGlobalOrganization(subject: string, suffix: string) returns (failure: Option<Failure>)
      modifies this
      ensures State() == FoundOrganization(old(State()), subject, suffix)
      ensures failure == None ==>
        && Name(OrganizationName(suffix), subject) in members
        && members[Name(OrganizationName(suffix), subject)].role == Authorization.SuperUser
        && NamespaceOf(organizations, OrganizationName(suffix)) == Some(OrganizationName(suffix))
    {
      if subject !in users {
        return Some(NotFound);
      }
      var namespace := OrganizationName(suffix);
      if namespace in organizations || exists o :: o in organizations && organizations[o].namespace == Some(namespace) {
        return Some(AlreadyExists);
      }
      organizations := organizations[namespace := Organization(Some(namespace), [])];
      var member := Name(namespace, subject);
      if subject == "" {
        return Some(Unnamed);
      }
      if member in members {
        return Some(AlreadyExists);
      }
      members, nextUid := members[member := Member(nextUid, Authorization.SuperUser, subject)], nextUid + 1;
      failure := None;
    }

    /** A member can be named by its name or, by its own user, as `@me`. */
    method DeleteOrganizationMember(organization: string, memberName: string, subject: string)
      returns (failure: Option<Failure>)
      modifies this
      ensures var namespace := NamespaceOf(organizations, organization);
        if namespace == None then State() == old(State()) && failure.Some?
        else
          var key := Name(namespace.value, if memberName == "@me" then subject else memberName);
          State() == RemoveMember(old(State()), key) && (failure == None <==> key in old(members))
    {
      var namespace := NamespaceOf(organizations, organization);
      if namespace == None {
        return Some(NoNamespace);
      }
      var key := Name(namespace.value, memberName);
      if memberName == "@me" {
        key := Name(namespace.value, subject);
      }
      if key !in members {
        assert members - {key} == members;
        return Some(NotFound);
      }
      members := members - {key};
      failure := None;
    }
  }

  lemma SameUsersAdmitAlike(cfg: Config, s: State, t: State, user: User)
    requires t.users == s.users
    ensures UserAdmitted(cfg, t, user) <==> UserAdmitted(cfg, s, user)
  {
    assert UsersWithEmail(t, user.email) == UsersWithEmail(s, user.email);
  }
}
