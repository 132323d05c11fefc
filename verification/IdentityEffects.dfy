/** What the steps achieve: when each one succeeds, in terms that a caller can check, and what is true then. */
module IdentityEffects {
  import opened Wrappers
  import opened Identity
  import opened IdentityInvariants
  import opened IdentityRuns
  import opened IdentityFixpoint
  import BubbleBabble
  import Authorization
  import Rbac
  import IdentityInvitations

  // ---------- strings ----------

  lemma HasPrefixIs(s: string, prefix: string)
    ensures HasPrefix(s, prefix) <==> exists rest :: s == prefix + rest
  {
    if HasPrefix(s, prefix) {
      assert s == prefix + s[|prefix|..];
    }
  }

  lemma HasSuffixIs(s: string, suffix: string)
    ensures HasSuffix(s, suffix) <==> exists start :: s == start + suffix
  {
    if HasSuffix(s, suffix) {
      assert s == s[..|s| - |suffix|] + suffix;
    }
  }

  /** The separator stands at the position. */
  predicate StandsAt(s: string, separator: string, i: nat)
    requires i <= |s|
  {
    HasPrefix(s[i..], separator)
  }

  /** What is cut off is what comes before the first separator, if there is one. */
  lemma {:induction false} BeforeIsFirst(s: string, separator: string)
    requires separator != ""
    ensures match Before(s, separator)
      case None => forall i :: 0 <= i <= |s| ==> !StandsAt(s, separator, i)
      case Some(start) =>
        && |start| <= |s| && start == s[..|start|]
        && StandsAt(s, separator, |start|)
        && forall i :: 0 <= i < |start| ==> !StandsAt(s, separator, i)
  {
    assert s[0..] == s;
    if s != "" && !HasPrefix(s, separator) {
      BeforeIsFirst(s[1..], separator);
      forall i | 0 < i <= |s| ensures StandsAt(s, separator, i) <==> StandsAt(s[1..], separator, i - 1) {
        assert s[1..][i - 1..] == s[i..];
      }
    }
  }

  /** In every reachable state, the text of every request spells out the code of the request. */
  lemma TextsSpellCodes(cfg: Config, run: Run, name: string)
    requires IsRun(cfg, run) && name in run.Last().requests
    ensures var r := run.Last().requests[name];
      var start := if IsSignUp(name) then |SIGN_UP_TEXT| else |RESET_TEXT|;
      && r.code != ""
      && start + |r.code| <= |r.bodyText|
      && r.bodyText[start..start + |r.code|] == r.code
  {
    var s := run.Last();
    RunKeepsInv(cfg, run);
    if IsSignUp(name) {
      var n :| name == SignUp(n);
      assert SignUpOk(s, n);
      SignUpTextSpellsCode(s.requests[name].code);
    } else {
      ResetTextSpellsCode(s.requests[name].code);
    }
    hide IsRun, SignUp, PasswordReset, SignUpBody, ResetBody;
  }

  // ---------- users ----------

  /** The webhook admits a user if and only if its address parses, no other user has the address, and either
      no domains are prescribed, the user has a voucher, or the parsed address ends in one of them. */
  lemma UserAdmittedIff(cfg: Config, s: State, user: User)
    ensures UserAdmitted(cfg, s, user) <==>
      && cfg.address(user.email).Some?
      && (forall n :: n in s.users && s.users[n].email == user.email ==> s.users[n].uid == user.uid)
      && (|| cfg.allowedDomains == None
          || user.hasVoucher
          || exists start, i :: 0 <= i < |cfg.allowedDomains.value|
                                && cfg.address(user.email).value == start + cfg.allowedDomains.value[i])
  {
    assert forall n :: n in UsersWithEmail(s, user.email) <==> n in s.users && s.users[n].email == user.email;
    hide UsersWithEmail;
    if cfg.address(user.email).Some? && cfg.allowedDomains.Some? {
      var address, domains := cfg.address(user.email).value, cfg.allowedDomains.value;
      forall i | 0 <= i < |domains|
        ensures HasSuffix(address, domains[i]) <==> exists start :: address == start + domains[i]
      {
        HasSuffixIs(address, domains[i]);
      }
      hide HasSuffix;
    }
  }

  /** A user is created if and only if its name is free and it is admitted; then it is there as it was given,
      with no conditions, and everybody else is as before. */
  lemma UserIsCreatedIff(cfg: Config, s: State, name: string, email: string, password: string, providerID: string,
                         hasVoucher: bool)
    ensures var t := Identity.CreateUser(cfg, s, name, email, password, providerID, hasVoucher);
      && (t != s <==>
            name !in s.users && UserAdmitted(cfg, s, User(s.nextUid, email, password, providerID, hasVoucher, map[])))
      && (t != s ==>
            && t.users.Keys == s.users.Keys + {name}
            && (forall n :: n in s.users ==> t.users[n] == s.users[n])
            && t.users[name].uid == s.nextUid && t.users[name].email == email && t.users[name].password == password
            && t.users[name].providerID == providerID && t.users[name].hasVoucher == hasVoucher
            && t.users[name].conditions == map[])
  {
    hide UserAdmitted;
  }

  /** Any update that names a user and is admitted gives it the address and the password, and changes nothing
      else about anyone. */
  lemma UserIsPatchedIff(cfg: Config, s: State, name: string, email: string, password: string)
    ensures var t := Identity.PatchUser(cfg, s, name, email, password);
      if name in s.users && UserAdmitted(cfg, s, s.users[name].(email := email, password := password))
      then
        && t.users.Keys == s.users.Keys
        && t.users[name].email == email && t.users[name].password == password
        && t.users[name].uid == s.users[name].uid && t.users[name].providerID == s.users[name].providerID
        && t.users[name].hasVoucher == s.users[name].hasVoucher && t.users[name].conditions == s.users[name].conditions
        && (forall n :: n in s.users && n != name ==> t.users[n] == s.users[n])
      else t == s
  {
    hide UserAdmitted;
  }

  lemma IsDockyardsIff(user: User)
    ensures IsDockyards(user) <==> exists rest :: user.providerID == "dockyards://" + rest
  {
    HasPrefixIs(user.providerID, "dockyards://");
    assert DOCKYARDS == "dockyards://";
    hide HasPrefix;
  }

  /** A provider is known if and only if what comes before the first `://` is the name of an identity
      provider in the public namespace. */
  lemma ProviderKnownIff(cfg: Config, user: User)
    ensures ProviderKnown(cfg, user) <==>
      exists namespace, i :: && cfg.publicNamespace == Some(namespace) && 0 <= i <= |user.providerID|
                             && StandsAt(user.providerID, "://", i)
                             && (forall j :: 0 <= j < i ==> !StandsAt(user.providerID, "://", j))
                             && Name(namespace, user.providerID[..i]) in cfg.identityProviders
  {
    BeforeIsFirst(user.providerID, "://");
    hide StandsAt, Before;
    if ProviderKnown(cfg, user) {
      var start := Before(user.providerID, "://").value;
      assert StandsAt(user.providerID, "://", |start|);
    }
  }

  // ---------- becoming ready ----------

  lemma SettledKeepsReady(s: State, n: string)
    requires n in s.users && READY in s.users[n].conditions
    ensures n in Settled(s, n).users && READY in Settled(s, n).users[n].conditions
    ensures Settled(s, n).users[n].conditions[READY] == s.users[n].conditions[READY]
  {
    assert READY != AUTHORIZED;
    hide SignUp, Rbac.ApplyWrites, Authorization.UserWrites;
  }

  /** The first condition of a dockyards user. */
  lemma NewUsersAreNotVerified(cfg: Config, s: State, n: string, draw: Draw, reread: bool)
    requires n in s.users && IsDockyards(s.users[n]) && s.users[n].conditions == map[] && !HasVerifiedSignUp(s, n)
    ensures ReconcileUser(cfg, s, n, draw, reread).users[n].conditions
         == map[READY := Condition(False, "NotVerified", "", s.now)]
  {
    hide SignUp, IsDockyards, ProviderKnown, SignUpRequest, Settled;
    var s1 := Introduced(s, n);
    RequestIsAsked(s1, n, draw);
  }

  /** Where a verified request makes a user ready, its condition is copied, with its time. */
  lemma ReadyIsVerified(cfg: Config, s: State, n: string, draw: Draw, reread: bool)
    requires n in s.users && IsDockyards(s.users[n]) && !IsReady(s, n) && HasVerifiedSignUp(s, n)
    ensures var t := ReconcileUser(cfg, s, n, draw, reread);
      READY in t.users[n].conditions && t.users[n].conditions[READY] == s.requests[SignUp(n)].conditions[VERIFIED]
  {
    var s1 := Introduced(s, n);
    IntroducedIs(s, n);
    SignUpRequestConditions(s1, n, draw);
    SettledKeepsReady(VerifiedNow(s1, n, draw), n);
    hide SignUp, IsDockyards, ProviderKnown, Introduced, SignUpRequest, Settled;
  }

  /** The state after the verification of a user whose request is verified. */
  ghost function VerifiedNow(s: State, n: string, draw: Draw): (t: State)
    requires n in s.users && IsDockyards(s.users[n]) && !IsReady(s, n) && HasVerifiedSignUp(s, n)
    ensures n in t.users && READY in t.users[n].conditions
    ensures t == AfterVerification(s, n, draw)
  {
    AfterVerificationIs(s, n, draw);
    hide SignUp, SignUpRequest, IsDockyards;
    AfterVerification(s, n, draw)
  }

  /** A user from a known provider that has not been introduced is ready and settled after one
      reconciliation. */
  lemma ProvidedUsersBecomeReady(cfg: Config, s: State, n: string, draw: Draw, reread: bool)
    requires n in s.users && !IsDockyards(s.users[n]) && ProviderKnown(cfg, s.users[n])
    requires READY !in s.users[n].conditions
    ensures var t := ReconcileUser(cfg, s, n, draw, reread);
      && IsSettled(t, n)
      && READY in t.users[n].conditions
      && t.users[n].conditions[READY] == Condition(True, "Verified", "Verified by OIDC", s.now)
  {
    var s1 := Introduced(s, n);
    IntroducedIs(s, n);
    SettledIsSettled(s1, n);
    SettledKeepsReady(s1, n);
    hide SignUp, IsDockyards, ProviderKnown, Settled, IsSettled;
  }

  /** The code of a request that is new is what was drawn, encoded; that of an old one stays. */
  lemma CodeIsDrawn(s: State, n: string, draw: Draw)
    requires n in s.users
    ensures var r := SignUpRequest(s, n, draw);
      if SignUp(n) in s.requests && s.requests[SignUp(n)].code != "" then r.code == s.requests[SignUp(n)].code
      else BubbleBabble.Decode(r.code) == Some(draw)
  {
    BubbleBabble.DecodeInvertsEncode(draw, BubbleBabble.Encode(draw));
    hide SignUp, SignUpBody, BubbleBabble.Encode, BubbleBabble.Decode;
  }

  /** A dockyards user that is neither ready nor verified has its sign-up request out after a reconciliation;
      if there was none, its code is what was drawn. */
  lemma UnverifiedUsersAreAsked(cfg: Config, s: State, n: string, draw: Draw, reread: bool)
    requires n in s.users && IsDockyards(s.users[n]) && !IsReady(s, n) && !HasVerifiedSignUp(s, n)
    ensures var t := ReconcileUser(cfg, s, n, draw, reread);
      && !IsReady(t, n)
      && IsAsked(t, n)
      && t.requests[SignUp(n)].owner == (if SignUp(n) in s.requests then s.requests[SignUp(n)].owner
                                         else Owner(n, s.users[n].uid))
      && (SignUp(n) !in s.requests ==> BubbleBabble.Decode(t.requests[SignUp(n)].code) == Some(draw))
  {
    var s1 := Introduced(s, n);
    IntroducedIs(s, n);
    AfterVerificationIs(s1, n, draw);
    SameRequest(s, s1, n, draw);
    CodeIsDrawn(s, n, draw);
    AsksWith(s1, n, draw);
    OwnerIs(s, n, draw);
    assert HasVerifiedSignUp(s1, n) == HasVerifiedSignUp(s, n);
    hide SignUp, IsDockyards, ProviderKnown, Introduced, Settled, IsAsked, AfterVerification, SignUpRequest,
         BubbleBabble.Decode;
  }

  lemma OwnerIs(s: State, n: string, draw: Draw)
    requires n in s.users
    ensures SignUpRequest(s, n, draw).owner ==
      if SignUp(n) in s.requests then s.requests[SignUp(n)].owner else Owner(n, s.users[n].uid)
  {
    hide SignUp, SignUpBody, BubbleBabble.Encode;
  }

  lemma AsksWith(s: State, n: string, draw: Draw)
    requires n in s.users && IsDockyards(s.users[n]) && !IsReady(s, n)
    ensures var t := AfterVerification(s, n, draw);
      SignUp(n) in t.requests && t.requests[SignUp(n)] == SignUpRequest(s, n, draw)
  {
    hide SignUp, SignUpRequest, IsDockyards;
  }

  /** A verification that succeeds makes the one request with the code verified and touches nothing else; one
      that does not changes nothing. */
  lemma VerificationVerifies(s: State, isAccount: bool, code: string, name: string)
    ensures var t := Verify(s, isAccount, code);
      && (CanVerify(s, isAccount, code, name) ==>
            && name in s.requests
            && IsTrue(t.requests[name].conditions, VERIFIED)
            && t.requests == s.requests[name := s.requests[name].(conditions := t.requests[name].conditions)]
            && (forall kind :: kind != VERIFIED && kind in s.requests[name].conditions ==>
                  && kind in t.requests[name].conditions
                  && t.requests[name].conditions[kind] == s.requests[name].conditions[kind]))
      && ((forall n :: !CanVerify(s, isAccount, code, n)) ==> t == s)
  {
    if CanVerify(s, isAccount, code, name) {
      assert name in RequestsWithCode(s, code);
    }
    hide RequestsWithCode, InTime;
  }

  /** For a sign-up request that means: an account code that no other request has, at most half an hour after
      the request was created. */
  lemma SignUpCanVerifyIff(s: State, isAccount: bool, code: string, n: string)
    requires SignUpsOk(s) && SignUp(n) in s.requests
    ensures CanVerify(s, isAccount, code, SignUp(n)) <==>
      && isAccount
      && s.requests[SignUp(n)].code == code
      && (forall r :: r in s.requests && s.requests[r].code == code ==> r == SignUp(n))
      && s.now <= s.requests[SignUp(n)].created + 1800
  {
    assert SignUpOk(s, n);
    assert SIGN_UP_SECONDS == 1800;
    var codes := RequestsWithCode(s, code);
    assert forall r :: r in codes <==> r in s.requests && s.requests[r].code == code;
    hide SignUp, SignUpBody, SignUpsOk, RequestsWithCode;
    if SignUp(n) in codes && forall r :: r in codes ==> r == SignUp(n) {
      assert codes == {SignUp(n)};
    }
  }

  /** A dockyards user with a verified sign-up request is ready after one reconciliation, whatever is read. */
  lemma VerifiedUsersBecomeReady(cfg: Config, s: State, n: string, draw: Draw, reread: bool)
    requires n in s.users && IsDockyards(s.users[n]) && HasVerifiedSignUp(s, n)
    ensures IsReady(ReconcileUser(cfg, s, n, draw, reread), n)
  {
    if IsReady(s, n) {
      ReconciledReady(cfg, s, n, draw, reread);
    } else {
      var s1 := Introduced(s, n);
      IntroducedIs(s, n);
      assert HasVerifiedSignUp(s1, n);
      AfterVerificationIs(s1, n, draw);
      SettledReady(AfterVerification(s1, n, draw), n);
    }
    hide SignUp, IsDockyards, ProviderKnown, Introduced, Settled, AfterVerification;
  }

  /** So a code that is presented in time makes its user ready. */
  lemma VerificationMakesReady(cfg: Config, s: State, n: string, isAccount: bool, code: string, draw: Draw,
                               reread: bool)
    requires SignUpsOk(s) && CanVerify(s, isAccount, code, SignUp(n))
    ensures IsReady(ReconcileUser(cfg, Verify(s, isAccount, code), n, draw, reread), n)
  {
    VerificationVerifies(s, isAccount, code, SignUp(n));
    assert SignUpOk(s, n);
    hide SignUp, CanVerify, Verify, SignUpsOk, SignUpOk;
    VerifiedUsersBecomeReady(cfg, Verify(s, isAccount, code), n, draw, reread);
  }

  // ---------- when requests were created ----------

  /** A request that is new says when it was created and has a new UID; an old one keeps both. */
  ghost predicate Stamped(s: State, t: State) {
    forall r :: r in t.requests ==>
      if r in s.requests then t.requests[r].created == s.requests[r].created && t.requests[r].uid == s.requests[r].uid
      else t.requests[r].created == s.now && t.requests[r].uid == s.nextUid && t.requests[r].conditions == map[]
  }

  lemma StepStamps(cfg: Config, s: State, step: Step)
    ensures Stamped(s, Next(cfg, s, step))
  {
    hide Stamped, ReconcileUser, CreateUser, PatchUser, Verify, RequestReset, ConsumeReset, FinishReset, Invite,
         UpdateInvitation, ExpireInvitation, Accept, Decline, FoundOrganization, ChangeRole;
    match step
    case DoReconcile(name, draw, reread) => ReconcileStamps(cfg, s, name, draw, reread);
    case DoRequestReset(address, draw, suffix) => ResetStamps(cfg, s, address, draw, suffix);
    case DoVerify(isAccount, code) => VerifyStamps(s, isAccount, code);
    case DoConsumeReset(code, password) => ConsumeStamps(s, code, password);
    case _ => SameStamps(s, Next(cfg, s, step));
  }

  lemma SameStamps(s: State, t: State)
    requires t.requests == s.requests
    ensures Stamped(s, t)
  {
  }

  lemma VerifyStamps(s: State, isAccount: bool, code: string)
    ensures Stamped(s, Verify(s, isAccount, code))
  {
    hide Verify;
    VerifyChangesConditions(s, isAccount, code);
  }

  lemma ConsumeStamps(s: State, code: string, password: string)
    ensures Stamped(s, ConsumeReset(s, code, password))
  {
    hide ConsumeReset;
    ConsumeRemoves(s, code, password);
  }

  lemma ResetStamps(cfg: Config, s: State, address: string, draw: Draw, suffix: string)
    ensures Stamped(s, RequestReset(cfg, s, address, draw, suffix))
  {
    hide PasswordReset, ResetBody, UsersWithEmail, BubbleBabble.Encode;
  }

  lemma SignUpRequestStamp(s: State, n: string, draw: Draw)
    requires n in s.users
    ensures var r := SignUpRequest(s, n, draw);
      if SignUp(n) in s.requests then r.created == s.requests[SignUp(n)].created && r.uid == s.requests[SignUp(n)].uid
      else r.created == s.now && r.uid == s.nextUid && r.conditions == map[]
  {
    hide SignUp, SignUpBody, BubbleBabble.Encode;
  }

  lemma ReconcileStamps(cfg: Config, s: State, name: string, draw: Draw, reread: bool)
    ensures Stamped(s, ReconcileUser(cfg, s, name, draw, reread))
  {
    ReconcileTouches(cfg, s, name, draw, reread);
    if name in s.users {
      ReconciledRequest(cfg, s, name, draw, reread);
      SignUpRequestStamp(s, name, draw);
    }
    hide ReconcileUser, SignUp, SignUpRequest;
  }

  /** The request was created by the step, at the time it says, and has been there ever since. */
  ghost predicate CreatedAt(run: Run, j: nat, i: nat, name: string, uid: nat, created: nat)
    requires j < i < |run.states|
  {
    && name !in run.states[j].requests
    && created == run.states[j].now
    && forall k :: j < k <= i ==> name in run.states[k].requests && run.states[k].requests[name].uid == uid
  }

  /** In every run: what a request says about its creation is true. */
  lemma {:induction false} CreationTimesAreTrue(cfg: Config, run: Run, i: nat, name: string)
    requires IsRun(cfg, run) && i < |run.states| && name in run.states[i].requests
    ensures var r := run.states[i].requests[name];
      exists j :: 0 <= j < i && CreatedAt(run, j, i, name, r.uid, r.created)
    decreases i
  {
    hide Next, Enabled;
    var r := run.states[i].requests[name];
    if i > 0 {
      StepOfRun(cfg, run, i - 1);
      StepStamps(cfg, run.states[i - 1], run.steps[i - 1]);
      if name in run.states[i - 1].requests {
        CreationTimesAreTrue(cfg, run, i - 1, name);
        var j :| 0 <= j < i - 1 && CreatedAt(run, j, i - 1, name, r.uid, r.created);
        assert CreatedAt(run, j, i, name, r.uid, r.created);
      } else {
        assert CreatedAt(run, i - 1, i, name, r.uid, r.created);
      }
    }
  }

  // ---------- password resets ----------

  /** Who gets a password-reset request, of what kind. */
  ghost predicate ResetGiven(s: State, t: State, n: string, draw: Draw, suffix: string) {
    && "password-reset-" + suffix in t.requests
    && var r := t.requests["password-reset-" + suffix];
       && t.requests == s.requests["password-reset-" + suffix := r]
       && n in s.users && r.owner == Owner(n, s.users[n].uid) && r.userRef == n
       && r.created == s.now && r.duration == Some(600)
       && BubbleBabble.Decode(r.code) == Some(draw)
       && r.conditions == map[]
  }

  /** A request is made if and only if the address is that of a user whom Dockyards itself provides, under a
      name that is free; it is for that user, good for ten minutes, and has a fresh code. */
  lemma ResetIsRequestedIff(cfg: Config, s: State, address: string, draw: Draw, suffix: string, n: string)
    requires UsersApart(s)
    ensures var t := RequestReset(cfg, s, address, draw, suffix);
      && (&& n in s.users && cfg.address(address) == Some(s.users[n].email) && s.users[n].providerID == "dockyards://"
          && "password-reset-" + suffix !in s.requests
          ==> ResetGiven(s, t, n, draw, suffix))
      && (t != s ==> exists m :: && m in s.users && cfg.address(address) == Some(s.users[m].email)
                                 && s.users[m].providerID == "dockyards://"
                                 && "password-reset-" + suffix !in s.requests)
  {
    BubbleBabble.DecodeInvertsEncode(draw, BubbleBabble.Encode(draw));
    assert RESET_SECONDS == 600;
    assert DOCKYARDS == "dockyards://";
    assert PasswordReset(suffix) == "password-reset-" + suffix;
    hide PasswordReset, ResetBody, BubbleBabble.Encode, BubbleBabble.Decode;
    var t := RequestReset(cfg, s, address, draw, suffix);
    if n in s.users && cfg.address(address) == Some(s.users[n].email) {
      var found := UsersWithEmail(s, s.users[n].email);
      assert n in found;
      assert found == {n};
    }
    if t != s {
      var m := TheOnly(UsersWithEmail(s, cfg.address(address).value)).value;
      assert m in UsersWithEmail(s, cfg.address(address).value);
    }
  }

  // ---------- invitations, organizations and members ----------

  /** An invitation is made if and only if the organization has a namespace, the generated name is free there,
      the address parses, is not invited to the namespace, and is not that of a listed member. */
  lemma InvitationIsMadeIff(cfg: Config, s: State, organization: string, email: string, role: MemberRole,
                            duration: Option<int>, suffix: string, users: seq<string>)
    requires UsersApart(s) && Lists(users, UsersWithEmail(s, email))
    ensures Invite(cfg, s, organization, email, role, duration, suffix, users) != s <==>
      && organization in s.organizations
      && s.organizations[organization].namespace.Some?
      && var namespace := s.organizations[organization].namespace.value;
         && Name(namespace, "pending-" + suffix) !in s.invitations
         && cfg.address(email).Some?
         && (forall k :: k in s.invitations && k.namespace == namespace ==> s.invitations[k].email != email)
         && (forall n, o :: n in s.users && s.users[n].email == email && o in s.organizations ==>
               s.organizations[o].namespace == Some(namespace) ==> n !in s.organizations[o].memberRefs)
  {
    IdentityInvitations.AloneInList(s, email, users);
    var t := Invite(cfg, s, organization, email, role, duration, suffix, users);
    if NamespaceOf(s.organizations, organization).Some? {
      var namespace := NamespaceOf(s.organizations, organization).value;
      assert InvitationsFor(s, namespace, email) == {} <==>
        forall k :: k in s.invitations && k.namespace == namespace ==> s.invitations[k].email != email by
      {
        assert forall k :: k in InvitationsFor(s, namespace, email) <==>
          k in s.invitations && k.namespace == namespace && s.invitations[k].email == email;
        hide InvitationsFor;
      }
      if users != [] {
        assert users[0] in s.users && s.users[users[0]].email == email;
      }
      hide InvitationsFor, UsersWithEmail;
    }
  }

  /** There is an invitation for the subject's address in the organization's namespace. */
  ghost predicate IsInvited(s: State, subject: string, organization: string, key: Name) {
    && subject in s.users
    && key in s.invitations
    && organization in s.organizations
    && s.organizations[organization].namespace == Some(key.namespace)
    && s.invitations[key].email == s.users[subject].email
  }

  /** A subject declines if and only if there is an invitation for its address in the organization's namespace;
      that one goes, and nothing else. */
  lemma DeclineRemoves(s: State, subject: string, organization: string, key: Name)
    requires InvitationsApart(s)
    ensures var t := Decline(s, subject, organization);
      && (IsInvited(s, subject, organization, key) ==> key !in t.invitations && t.invitations == s.invitations - {key})
      && (t != s ==> exists k :: IsInvited(s, subject, organization, k))
  {
    if IsInvited(s, subject, organization, key) {
      var keys := InvitationsFor(s, key.namespace, s.users[subject].email);
      assert key in keys;
      assert keys == {key};
    }
    if Decline(s, subject, organization) != s {
      var k := InvitationOf(s, subject, organization).value;
      assert k in InvitationsFor(s, k.namespace, s.users[subject].email);
      assert IsInvited(s, subject, organization, k);
    }
  }

  /** Reconciling an invitation removes it, and nothing else, if and only if it is past its duration. */
  lemma ExpiryRemovesIff(s: State, key: Name)
    requires key in s.invitations
    ensures var t, i := ExpireInvitation(s, key), s.invitations[key];
      if i.duration.Some? && i.created + i.duration.value < s.now
      then key !in t.invitations && t.invitations == s.invitations - {key}
      else t == s
  {
  }

  /** A removal takes exactly the one member away. */
  lemma RemovalTakesOne(s: State, key: Name)
    ensures var t := RemoveMember(s, key);
      && key !in t.members
      && t.members.Keys == s.members.Keys - {key}
      && forall k :: k in t.members ==> t.members[k] == s.members[k]
  {
  }

  /** A change of role changes the role of the one member and nothing else. */
  lemma RoleChangesOne(s: State, key: Name, role: MemberRole)
    ensures var t := ChangeRole(s, key, role);
      && t.members.Keys == s.members.Keys
      && (forall k :: k in s.members && k != key ==> t.members[k] == s.members[k])
      && (key in s.members ==>
            && t.members[key].role == role
            && t.members[key].user == s.members[key].user
            && t.members[key].uid == s.members[key].uid)
  {
  }

  /** An organization is founded if and only if the subject is a user and no organization has or uses the
      generated name; it gets a namespace of that name and no listed members, and its founder becomes a member,
      as a super user. */
  lemma FoundingIff(s: State, subject: string, suffix: string)
    ensures var t, name := FoundOrganization(s, subject, suffix), "dockyards-" + suffix;
      && (name !in s.organizations && name in t.organizations <==>
            && subject in s.users && name !in s.organizations
            && forall o :: o in s.organizations ==> s.organizations[o].namespace != Some(name))
      && (name !in s.organizations && name in t.organizations ==>
            && t.organizations == s.organizations[name := Organization(Some(name), [])]
            && (subject != "" && Name(name, subject) !in s.members ==>
                  t.members == s.members[Name(name, subject) := Member(s.nextUid, Authorization.SuperUser, subject)]))
      && (t.organizations == s.organizations ==> t.members == s.members)
  {
  }
}
