/** What every step keeps: who has which address, what a sign-up request says, where each UID lives, and
    who is invited. */
module IdentityInvariants {
  import opened Wrappers
  import opened Identity
  import BubbleBabble
  import Rbac
  import Authorization

  // ---------- the invariant ----------

  /** No two users share an address. */
  ghost predicate UsersApart(s: State) {
    && (forall n :: n in s.users ==> s.users[n].uid < s.nextUid)
    && (forall m, n :: m in s.users && n in s.users && m != n ==>
        s.users[m].uid != s.users[n].uid && s.users[m].email != s.users[n].email)
  }

  /** A sign-up request belongs to the dockyards user it is named after and spells out its own code. */
  ghost predicate SignUpOk(s: State, n: string) {
    && n in s.users
    && SignUp(n) in s.requests
    && IsDockyards(s.users[n])
    && var r := s.requests[SignUp(n)];
       && r.owner == Owner(n, s.users[n].uid)
       && r.userRef == n
       && r.duration == Some(SIGN_UP_SECONDS)
       && r.subject == "Email Verification"
       && r.code != ""
       && r.bodyText == SignUpBody(r.code)
  }

  ghost predicate SignUpsOk(s: State) {
    forall n :: SignUp(n) in s.requests ==> SignUpOk(s, n)
  }

  /** No request has the UID of another one or of a reset under way. */
  ghost predicate RequestsApart(s: State) {
    && (forall n :: n in s.requests ==> s.requests[n].uid < s.nextUid && s.requests[n].uid !in s.resets)
    && (forall m, n :: m in s.requests && n in s.requests && m != n ==> s.requests[m].uid != s.requests[n].uid)
    && (forall u :: u in s.resets ==> u < s.nextUid && s.resets[u].request.uid == u)
  }

  /** The request was made for this very user. */
  ghost predicate IsOwned(s: State, r: Request) {
    r.userRef in s.users && r.owner == Owner(r.userRef, s.users[r.userRef].uid)
  }

  ghost predicate IsSignUp(name: string) {
    exists n :: name == SignUp(n)
  }

  ghost predicate IsPasswordReset(name: string) {
    exists suffix :: name == PasswordReset(suffix)
  }

  /** A password-reset request spells out its own code and is good for ten minutes. */
  ghost predicate IsResetRequest(r: Request) {
    && r.subject == "Password Reset"
    && r.duration == Some(RESET_SECONDS)
    && r.code != ""
    && r.bodyText == ResetBody(r.code)
  }

  /** Every request that is no sign-up request is a password-reset request, and every request, used up or
      not, was made for a user that is there. */
  ghost predicate RequestsOwned(s: State) {
    && (forall r :: r in s.requests && !IsSignUp(r) ==>
          IsPasswordReset(r) && IsResetRequest(s.requests[r]) && IsOwned(s, s.requests[r]))
    && (forall u :: u in s.resets ==> IsOwned(s, s.resets[u].request))
  }

  /** At most one invitation for an address in a namespace. */
  ghost predicate InvitationsApart(s: State) {
    forall k, l :: k in s.invitations && l in s.invitations && k != l && k.namespace == l.namespace ==>
      s.invitations[k].email != s.invitations[l].email
  }

  ghost predicate Inv(s: State) {
    UsersApart(s) && SignUpsOk(s) && RequestsApart(s) && RequestsOwned(s) && InvitationsApart(s)
  }

  // ---------- what steps leave alone ----------

  /** The users are the same, up to passwords and conditions. */
  ghost predicate SameUsers(s: State, t: State) {
    && t.users.Keys == s.users.Keys
    && (forall n :: n in s.users ==> t.users[n].uid == s.users[n].uid && t.users[n].email == s.users[n].email
                                     && t.users[n].providerID == s.users[n].providerID
                                     && t.users[n].hasVoucher == s.users[n].hasVoucher)
  }

  /** The users of one state are in another, with their UIDs and providers. */
  ghost predicate UsersRemain(s: State, t: State) {
    forall n :: n in s.users ==>
      n in t.users && t.users[n].uid == s.users[n].uid && t.users[n].providerID == s.users[n].providerID
  }

  /** What the reconciliation of a user may change at all. */
  ghost predicate Touches(s: State, t: State, name: string) {
    && SameUsers(s, t)
    && (forall n :: n in s.users ==>
          t.users[n].password == s.users[n].password && (n != name ==> t.users[n] == s.users[n]))
    && (forall r :: r != SignUp(name) ==>
          (r in t.requests <==> r in s.requests) && (r in s.requests ==> t.requests[r] == s.requests[r]))
    && t.organizations == s.organizations && t.invitations == s.invitations && t.members == s.members
    && t.resets == s.resets && t.now == s.now
    && s.nextUid <= t.nextUid
  }

  lemma TouchesTwice(s: State, t: State, u: State, name: string)
    requires Touches(s, t, name) && Touches(t, u, name)
    ensures Touches(s, u, name)
  {
    hide SignUp;
  }

  lemma ConditionsTouch(s: State, t: State, name: string)
    requires OnlyConditions(s, t, name)
    ensures Touches(s, t, name)
  {
    hide SignUp;
  }

  lemma RequestTouches(s: State, name: string, draw: Draw)
    requires name in s.users
    ensures Touches(s, WithSignUpRequest(s, name, draw), name)
  {
    hide SignUp, SignUpRequest;
  }

  lemma SettledTouches(s: State, name: string)
    requires name in s.users
    ensures Touches(s, Settled(s, name), name)
    ensures Settled(s, name).requests == s.requests - {SignUp(name)} && Settled(s, name).nextUid == s.nextUid
  {
    hide SignUp, SetCondition, SetUserCondition, Rbac.ApplyWrites, Authorization.UserWrites, Touches;
    var authorized := s.(requests := s.requests - {SignUp(name)},
                         rbac := Rbac.ApplyWrites(s.rbac, Authorization.UserWrites(name)));
    assert Touches(s, authorized, name) by { DeletionTouches(s, name, authorized.rbac); }
    ConditionsTouch(authorized, Settled(s, name), name);
    TouchesTwice(s, authorized, Settled(s, name), name);
  }

  lemma DeletionTouches(s: State, name: string, rbac: Rbac.Store)
    ensures Touches(s, s.(requests := s.requests - {SignUp(name)}, rbac := rbac), name)
  {
    hide SignUp;
  }

  lemma AfterVerificationTouches(s: State, name: string, draw: Draw)
    requires name in s.users
    ensures Touches(s, AfterVerification(s, name, draw), name)
  {
    hide SignUp, WithSignUpRequest, Verified, Touches;
    if IsDockyards(s.users[name]) && !IsTrue(s.users[name].conditions, READY) {
      var t := WithSignUpRequest(s, name, draw);
      RequestTouches(s, name, draw);
      ConditionsTouch(t, Verified(t, name), name);
      TouchesTwice(s, t, Verified(t, name), name);
    } else {
      assert Touches(s, s, name) by { TouchesNothing(s, name); }
    }
  }

  lemma TouchesNothing(s: State, name: string)
    ensures Touches(s, s, name)
  {
  }

  lemma ReconcileTouches(cfg: Config, s: State, name: string, draw: Draw, reread: bool)
    ensures Touches(s, ReconcileUser(cfg, s, name, draw, reread), name)
  {
    hide SignUp, Touches, Introduced, AfterVerification, Settled, ProviderKnown;
    TouchesNothing(s, name);
    if name in s.users {
      var s1 := Introduced(s, name);
      var s2 := AfterVerification(s1, name, draw);
      ConditionsTouch(s, s1, name);
      AfterVerificationTouches(s1, name, draw);
      TouchesTwice(s, s1, s2, name);
      SettledTouches(s2, name);
      TouchesTwice(s, s2, Settled(s2, name), name);
    }
  }

  /** The sign-up request of a user after its reconciliation: gone, as it was, or created or patched. */
  lemma ReconciledRequest(cfg: Config, s: State, name: string, draw: Draw, reread: bool)
    requires name in s.users
    ensures var t, r := ReconcileUser(cfg, s, name, draw, reread), SignUp(name);
      r in t.requests ==>
        || (r in s.requests && t.requests[r] == s.requests[r])
        || (&& IsDockyards(s.users[name]) && t.requests[r] == SignUpRequest(s, name, draw)
            && (r !in s.requests ==> t.nextUid == s.nextUid + 1))
  {
    hide SignUp, SignUpRequest, Introduced, Verified, Settled, ProviderKnown;
    var s1 := Introduced(s, name);
    var s2 := AfterVerification(s1, name, draw);
    SameRequest(s, s1, name, draw);
    SettledTouches(s2, name);
  }

  lemma SameRequest(s: State, t: State, name: string, draw: Draw)
    requires OnlyConditions(s, t, name)
    ensures SignUpRequest(t, name, draw) == SignUpRequest(s, name, draw)
  {
    hide SignUp, SignUpBody, BubbleBabble.Encode;
  }

  // ---------- every step keeps the invariant ----------

  lemma SignUpInjective(m: string, n: string)
    ensures SignUp(m) == SignUp(n) ==> m == n
  {
    assert SignUp(m)[8..] == m && SignUp(n)[8..] == n;
  }

  lemma SignUpIsNotReset(n: string, suffix: string)
    ensures SignUp(n) != PasswordReset(suffix)
  {
    assert SignUp(n)[0] == 's' && PasswordReset(suffix)[0] == 'p';
  }

  lemma CodesAreNotEmpty(draw: Draw)
    ensures BubbleBabble.Encode(draw) != ""
  {
    assert BubbleBabble.Encode(draw)[0] == 'x';
  }

  /** The body text of a sign-up request has the code after its first words, and nothing but text around it. */
  lemma SignUpTextSpellsCode(code: string)
    ensures |SIGN_UP_TEXT| + |code| <= |SignUpBody(code)|
    ensures SignUpBody(code)[..|SIGN_UP_TEXT|] == SIGN_UP_TEXT
    ensures SignUpBody(code)[|SIGN_UP_TEXT|..|SIGN_UP_TEXT| + |code|] == code
    ensures SignUpBody(code)[|SIGN_UP_TEXT| + |code|..] == SIGN_UP_END
  {
  }

  lemma ResetTextSpellsCode(code: string)
    ensures |RESET_TEXT| + |code| <= |ResetBody(code)|
    ensures ResetBody(code)[..|RESET_TEXT|] == RESET_TEXT
    ensures ResetBody(code)[|RESET_TEXT|..|RESET_TEXT| + |code|] == code
    ensures ResetBody(code)[|RESET_TEXT| + |code|..] == RESET_END
  {
  }

  lemma StepKeepsUsers(cfg: Config, s: State, step: Step)
    requires !step.DoCreateUser? && !step.DoPatchUser?
    ensures SameUsers(s, Next(cfg, s, step)) && s.nextUid <= Next(cfg, s, step).nextUid
  {
    hide ReconcileUser, Verify, RequestReset, ConsumeReset, FinishReset, Invite, UpdateInvitation, ExpireInvitation,
         Accept, Decline, FoundOrganization;
    match step
    case DoReconcile(name, draw, reread) => ReconcileTouches(cfg, s, name, draw, reread);
    case DoFinishReset(uid) => FinishKeepsUsers(cfg, s, uid);
    case _ =>
  }

  lemma FinishKeepsUsers(cfg: Config, s: State, uid: nat)
    ensures SameUsers(s, FinishReset(cfg, s, uid))
  {
    hide UserAdmitted, InTime;
  }

  /** Addresses stay unique: the webhook lets no user in with an address that someone else has. */
  lemma UsersStayApart(cfg: Config, s: State, step: Step)
    requires UsersApart(s)
    ensures UsersApart(Next(cfg, s, step))
  {
    hide UsersApart, UserAdmitted, ReconcileUser, CreateUser, PatchUser, Verify, RequestReset, ConsumeReset,
         FinishReset, Invite, UpdateInvitation, ExpireInvitation, Accept, Decline, FoundOrganization;
    match step
    case DoCreateUser(name, email, password, providerID, hasVoucher) =>
      CreateKeepsUsersApart(cfg, s, name, email, password, providerID, hasVoucher);
    case DoPatchUser(name, email, password) => PatchKeepsUsersApart(cfg, s, name, email, password);
    case _ =>
      StepKeepsUsers(cfg, s, step);
      hide Next;
      SameUsersApart(s, Next(cfg, s, step));
  }

  lemma SameUsersApart(s: State, t: State)
    requires UsersApart(s) && SameUsers(s, t) && s.nextUid <= t.nextUid
    ensures UsersApart(t)
  {
  }

  lemma CreateKeepsUsersApart(cfg: Config, s: State, name: string, email: string, password: string, providerID: string,
                              hasVoucher: bool)
    requires UsersApart(s)
    ensures UsersApart(Identity.CreateUser(cfg, s, name, email, password, providerID, hasVoucher))
  {
    if name !in s.users {
      UserAddedApart(cfg, s, name, User(s.nextUid, email, password, providerID, hasVoucher, map[]));
    }
    hide UserAdmitted, UsersApart;
  }

  lemma PatchKeepsUsersApart(cfg: Config, s: State, name: string, email: string, password: string)
    requires UsersApart(s)
    ensures UsersApart(Identity.PatchUser(cfg, s, name, email, password))
  {
    if name in s.users {
      UserPatchedApart(cfg, s, name, s.users[name].(email := email, password := password));
    }
    hide UserAdmitted, UsersApart;
  }

  lemma UserAddedApart(cfg: Config, s: State, name: string, user: User)
    requires UsersApart(s) && name !in s.users && user.uid == s.nextUid
    ensures UserAdmitted(cfg, s, user) ==> UsersApart(s.(users := s.users[name := user], nextUid := s.nextUid + 1))
  {
    hide DomainAllowed;
    forall n | n in s.users && s.users[n].email == user.email ensures n in UsersWithEmail(s, user.email) {
    }
  }

  lemma UserPatchedApart(cfg: Config, s: State, name: string, user: User)
    requires UsersApart(s) && name in s.users && user.uid == s.users[name].uid
    ensures UserAdmitted(cfg, s, user) ==> UsersApart(s.(users := s.users[name := user]))
  {
    hide DomainAllowed;
    forall n | n in s.users && s.users[n].email == user.email ensures n in UsersWithEmail(s, user.email) {
    }
  }

  lemma SameUsersKeepSignUps(s: State, t: State)
    requires SignUpsOk(s) && SameUsers(s, t)
    requires forall n :: SignUp(n) in t.requests ==>
      && SignUp(n) in s.requests
      && t.requests[SignUp(n)] == s.requests[SignUp(n)].(conditions := t.requests[SignUp(n)].conditions)
    ensures SignUpsOk(t)
  {
    hide SignUp, SignUpBody;
    forall n | SignUp(n) in t.requests ensures SignUpOk(t, n) {
      assert SignUpOk(s, n);
    }
  }

  lemma SignUpRequestIsOk(s: State, t: State, name: string, draw: Draw)
    requires SignUpsOk(s) && name in s.users && IsDockyards(s.users[name]) && SameUsers(s, t)
    requires SignUp(name) in t.requests && t.requests[SignUp(name)] == SignUpRequest(s, name, draw)
    ensures SignUpOk(t, name)
  {
    CodesAreNotEmpty(draw);
    hide SignUp, SignUpBody, BubbleBabble.Encode;
    if SignUp(name) in s.requests {
      assert SignUpOk(s, name);
    }
  }

  lemma ReconcileKeepsSignUps(cfg: Config, s: State, name: string, draw: Draw, reread: bool)
    requires SignUpsOk(s)
    ensures SignUpsOk(ReconcileUser(cfg, s, name, draw, reread))
  {
    var t := ReconcileUser(cfg, s, name, draw, reread);
    ReconcileTouches(cfg, s, name, draw, reread);
    if name in s.users {
      ReconciledRequest(cfg, s, name, draw, reread);
      hide ReconcileUser, SignUp, SignUpRequest, SignUpBody;
      forall n | SignUp(n) in t.requests ensures SignUpOk(t, n) {
        SignUpInjective(n, name);
        if n == name && t.requests[SignUp(n)] == SignUpRequest(s, name, draw) && IsDockyards(s.users[name]) {
          SignUpRequestIsOk(s, t, name, draw);
        } else {
          assert SignUpOk(s, n);
        }
      }
    }
  }

  /** Users may come and change in other ways. */
  lemma MoreUsersKeepSignUps(s: State, t: State)
    requires SignUpsOk(s) && t.requests == s.requests
    requires UsersRemain(s, t)
    ensures SignUpsOk(t)
  {
    hide SignUp, SignUpBody;
    forall n | SignUp(n) in t.requests ensures SignUpOk(t, n) {
      assert SignUpOk(s, n);
    }
  }

  lemma VerifyChangesConditions(s: State, isAccount: bool, code: string)
    ensures forall r :: r in s.requests ==>
      var t := Verify(s, isAccount, code);
      t.requests[r] == s.requests[r].(conditions := t.requests[r].conditions)
  {
    hide RequestsWithCode, SetCondition, InTime;
  }

  lemma ConsumeRemoves(s: State, code: string, password: string)
    ensures var t := ConsumeReset(s, code, password);
      forall r :: r in t.requests ==> r in s.requests && t.requests[r] == s.requests[r]
  {
    hide RequestsWithCode;
  }

  lemma SignUpsStayOk(cfg: Config, s: State, step: Step)
    requires SignUpsOk(s)
    ensures SignUpsOk(Next(cfg, s, step))
  {
    hide SignUpsOk, UsersRemain, SignUp, ReconcileUser, CreateUser, PatchUser, Verify, RequestReset, ConsumeReset,
         FinishReset, Invite, UpdateInvitation, ExpireInvitation, Accept, Decline, FoundOrganization, UserAdmitted;
    var t := Next(cfg, s, step);
    match step
    case DoReconcile(name, draw, reread) => ReconcileKeepsSignUps(cfg, s, name, draw, reread);
    case DoRequestReset(address, draw, suffix) => ResetKeepsSignUps(cfg, s, address, draw, suffix);
    case DoVerify(isAccount, code) =>
      VerifyChangesConditions(s, isAccount, code);
      SameUsersKeepSignUps(s, t);
    case DoConsumeReset(code, password) =>
      ConsumeRemoves(s, code, password);
      SameUsersKeepSignUps(s, t);
    case _ =>
      UsersStay(cfg, s, step);
      hide Next;
      MoreUsersKeepSignUps(s, t);
  }

  /** Users never go, and keep their UIDs and providers. */
  lemma UsersStay(cfg: Config, s: State, step: Step)
    ensures UsersRemain(s, Next(cfg, s, step))
  {
    hide UserAdmitted, ReconcileUser, Verify, RequestReset, ConsumeReset, FinishReset, Invite, UpdateInvitation,
         ExpireInvitation, Accept, Decline, FoundOrganization;
    match step
    case DoCreateUser(name, email, password, providerID, hasVoucher) =>
    case DoPatchUser(name, email, password) =>
    case _ =>
      StepKeepsUsers(cfg, s, step);
      hide Next;
  }

  lemma ResetKeepsSignUps(cfg: Config, s: State, address: string, draw: Draw, suffix: string)
    requires SignUpsOk(s)
    ensures SignUpsOk(RequestReset(cfg, s, address, draw, suffix))
  {
    hide SignUp, PasswordReset, SignUpBody, ResetBody, UsersWithEmail;
    var t := RequestReset(cfg, s, address, draw, suffix);
    forall n | SignUp(n) in t.requests ensures SignUpOk(t, n) {
      SignUpIsNotReset(n, suffix);
      assert SignUpOk(s, n);
    }
  }

  lemma RequestsStayApart(cfg: Config, s: State, step: Step)
    requires RequestsApart(s)
    ensures RequestsApart(Next(cfg, s, step))
  {
    hide RequestsApart, ReconcileUser, RequestReset, CreateUser, PatchUser, Verify, ConsumeReset, FinishReset, Invite,
         UpdateInvitation, ExpireInvitation, Accept, Decline, FoundOrganization;
    match step
    case DoReconcile(name, draw, reread) => ReconcileKeepsRequestsApart(cfg, s, name, draw, reread);
    case DoRequestReset(address, draw, suffix) => ResetKeepsRequestsApart(cfg, s, address, draw, suffix);
    case DoVerify(isAccount, code) => VerifyKeepsRequestsApart(s, isAccount, code);
    case DoConsumeReset(code, password) => ConsumeKeepsRequestsApart(s, code, password);
    case DoFinishReset(uid) => FinishKeepsRequestsApart(cfg, s, uid);
    case _ => SameRequestsApart(s, Next(cfg, s, step));
  }

  lemma SameRequestsApart(s: State, t: State)
    requires RequestsApart(s) && t.requests == s.requests && t.resets == s.resets && s.nextUid <= t.nextUid
    ensures RequestsApart(t)
  {
  }

  lemma VerifyKeepsRequestsApart(s: State, isAccount: bool, code: string)
    requires RequestsApart(s)
    ensures RequestsApart(Verify(s, isAccount, code))
  {
    hide Verify;
    VerifyChangesConditions(s, isAccount, code);
  }

  lemma FinishKeepsRequestsApart(cfg: Config, s: State, uid: nat)
    requires RequestsApart(s)
    ensures RequestsApart(FinishReset(cfg, s, uid))
  {
    hide ResetWrites;
  }

  lemma ResetKeepsRequestsApart(cfg: Config, s: State, address: string, draw: Draw, suffix: string)
    requires RequestsApart(s)
    ensures RequestsApart(RequestReset(cfg, s, address, draw, suffix))
  {
    hide PasswordReset, ResetBody, UsersWithEmail, BubbleBabble.Encode;
  }

  lemma ConsumeKeepsRequestsApart(s: State, code: string, password: string)
    requires RequestsApart(s)
    ensures RequestsApart(ConsumeReset(s, code, password))
  {
    match TheOnly(RequestsWithCode(s, code))
    case None =>
    case Some(name) => assert name in RequestsWithCode(s, code);
  }

  lemma ReconcileKeepsRequestsApart(cfg: Config, s: State, name: string, draw: Draw, reread: bool)
    requires RequestsApart(s)
    ensures RequestsApart(ReconcileUser(cfg, s, name, draw, reread))
  {
    ReconcileTouches(cfg, s, name, draw, reread);
    if name in s.users {
      ReconciledRequest(cfg, s, name, draw, reread);
      SignUpRequestUid(s, name, draw);
      hide ReconcileUser, SignUp, SignUpRequest;
      OneRequestChanged(s, ReconcileUser(cfg, s, name, draw, reread), SignUp(name));
    }
  }

  lemma SignUpRequestUid(s: State, name: string, draw: Draw)
    requires name in s.users
    ensures SignUpRequest(s, name, draw).uid ==
      if SignUp(name) in s.requests then s.requests[SignUp(name)].uid else s.nextUid
  {
  }

  lemma OneRequestChanged(s: State, t: State, r: string)
    requires RequestsApart(s) && t.resets == s.resets && s.nextUid <= t.nextUid
    requires forall q :: q != r ==>
      (q in t.requests <==> q in s.requests) && (q in s.requests ==> t.requests[q] == s.requests[q])
    requires r in t.requests && r in s.requests ==> t.requests[r].uid == s.requests[r].uid
    requires r in t.requests && r !in s.requests ==> t.requests[r].uid == s.nextUid < t.nextUid
    ensures RequestsApart(t)
  {
  }

  lemma RequestIsOwned(s: State, r: string)
    requires SignUpsOk(s) && RequestsOwned(s) && r in s.requests
    ensures IsOwned(s, s.requests[r])
  {
    hide SignUp, PasswordReset, SignUpBody, ResetBody;
    if IsSignUp(r) {
      var n :| r == SignUp(n);
      assert SignUpOk(s, n);
    }
  }

  lemma RequestsStayOwned(cfg: Config, s: State, step: Step)
    requires SignUpsOk(s) && RequestsOwned(s)
    ensures RequestsOwned(Next(cfg, s, step))
  {
    hide RequestsOwned, SignUpsOk, UsersRemain, ReconcileUser, RequestReset, CreateUser, PatchUser, Verify,
         ConsumeReset, FinishReset, Invite, UpdateInvitation, ExpireInvitation, Accept, Decline, FoundOrganization,
         ChangeRole;
    UsersStay(cfg, s, step);
    match step
    case DoReconcile(name, draw, reread) => ReconcileKeepsOwned(cfg, s, name, draw, reread);
    case DoRequestReset(address, draw, suffix) => ResetKeepsOwned(cfg, s, address, draw, suffix);
    case DoVerify(isAccount, code) => VerifyKeepsOwned(s, isAccount, code);
    case DoConsumeReset(code, password) => ConsumeKeepsOwned(s, code, password);
    case DoFinishReset(uid) => FinishKeepsOwned(cfg, s, uid);
    case _ => UsersKeepOwned(s, Next(cfg, s, step));
  }

  lemma UsersKeepOwned(s: State, t: State)
    requires RequestsOwned(s) && t.requests == s.requests && t.resets == s.resets && UsersRemain(s, t)
    ensures RequestsOwned(t)
  {
    hide IsSignUp, IsPasswordReset, IsResetRequest;
  }

  lemma ReconcileKeepsOwned(cfg: Config, s: State, name: string, draw: Draw, reread: bool)
    requires RequestsOwned(s)
    ensures RequestsOwned(ReconcileUser(cfg, s, name, draw, reread))
  {
    ReconcileTouches(cfg, s, name, draw, reread);
    hide ReconcileUser, Touches, RequestsOwned;
    TouchedKeepsOwned(s, ReconcileUser(cfg, s, name, draw, reread), name);
  }

  lemma TouchedKeepsOwned(s: State, t: State, name: string)
    requires RequestsOwned(s) && Touches(s, t, name)
    ensures RequestsOwned(t)
  {
    assert IsSignUp(SignUp(name));
    hide IsSignUp, IsPasswordReset, IsResetRequest, SignUp;
  }

  lemma ResetKeepsOwned(cfg: Config, s: State, address: string, draw: Draw, suffix: string)
    requires RequestsOwned(s)
    ensures RequestsOwned(RequestReset(cfg, s, address, draw, suffix))
  {
    CodesAreNotEmpty(draw);
    assert IsPasswordReset(PasswordReset(suffix));
    hide IsPasswordReset, IsSignUp, PasswordReset, ResetBody, BubbleBabble.Encode;
    var t := RequestReset(cfg, s, address, draw, suffix);
    hide RequestReset, UsersWithEmail;
    if t != s {
      ResetAdds(cfg, s, address, draw, suffix);
    }
  }

  lemma ResetAdds(cfg: Config, s: State, address: string, draw: Draw, suffix: string)
    requires RequestReset(cfg, s, address, draw, suffix) != s
    ensures var t, r := RequestReset(cfg, s, address, draw, suffix), PasswordReset(suffix);
      && r in t.requests && t.requests == s.requests[r := t.requests[r]]
      && IsOwned(s, t.requests[r]) && t.requests[r].subject == "Password Reset"
         && t.requests[r].duration == Some(RESET_SECONDS)
      && t.requests[r].code == BubbleBabble.Encode(draw) && t.requests[r].bodyText == ResetBody(t.requests[r].code)
  {
    hide PasswordReset, ResetBody, BubbleBabble.Encode;
  }

  lemma VerifyKeepsOwned(s: State, isAccount: bool, code: string)
    requires RequestsOwned(s)
    ensures RequestsOwned(Verify(s, isAccount, code))
  {
    VerifyChangesConditions(s, isAccount, code);
    hide Verify, IsPasswordReset, IsSignUp, ResetBody;
  }

  lemma ConsumeKeepsOwned(s: State, code: string, password: string)
    requires SignUpsOk(s) && RequestsOwned(s)
    ensures RequestsOwned(ConsumeReset(s, code, password))
  {
    hide SignUpsOk, IsPasswordReset, IsSignUp, IsResetRequest, RequestsWithCode;
    match TheOnly(RequestsWithCode(s, code))
    case None =>
    case Some(name) =>
      assert name in s.requests by { CodeIsOfRequest(s, code, name); }
      RequestIsOwned(s, name);
  }

  lemma CodeIsOfRequest(s: State, code: string, name: string)
    requires TheOnly(RequestsWithCode(s, code)) == Some(name)
    ensures name in s.requests && s.requests[name].code == code
  {
    assert name in RequestsWithCode(s, code);
  }

  lemma FinishKeepsOwned(cfg: Config, s: State, uid: nat)
    requires RequestsOwned(s)
    ensures RequestsOwned(FinishReset(cfg, s, uid))
  {
    FinishKeepsUsers(cfg, s, uid);
    hide FinishReset, IsPasswordReset, IsSignUp, IsResetRequest;
  }

  /** An update of a stored invitation is never admitted: the check for new invitations finds the
      invitation itself. */
  lemma UpdatesAreNeverAdmitted(cfg: Config, s: State, key: Name, new_: Invitation, users: seq<string>)
    requires key in s.invitations
    ensures !UpdateAdmitted(cfg, s, key, s.invitations[key], new_, users)
  {
    assert s.invitations[key].email == new_.email ==> key in InvitationsFor(s, key.namespace, new_.email);
  }

  lemma InvitationsStayApart(cfg: Config, s: State, step: Step)
    requires InvitationsApart(s)
    ensures InvitationsApart(Next(cfg, s, step))
  {
    hide InvitationsApart, ReconcileUser, RequestReset, CreateUser, PatchUser, Verify, ConsumeReset, FinishReset,
         Invite, UpdateInvitation, ExpireInvitation, Accept, Decline, FoundOrganization;
    match step
    case DoInvite(organization, email, role, duration, suffix, users) =>
      InviteKeepsApart(cfg, s, organization, email, role, duration, suffix, users);
    case DoUpdateInvitation(key, invitation, users) => UpdateChangesNothing(cfg, s, key, invitation, users);
    case _ =>
      OnlyInvitesAdd(cfg, s, step);
      hide Next;
      FewerInvitations(s, Next(cfg, s, step));
  }

  /** The invitations of one state are among those of another. */
  ghost predicate Among(t: State, s: State) {
    forall k :: k in t.invitations ==> k in s.invitations && t.invitations[k] == s.invitations[k]
  }

  lemma OnlyInvitesAdd(cfg: Config, s: State, step: Step)
    requires !step.DoInvite? && !step.DoUpdateInvitation?
    ensures Among(Next(cfg, s, step), s)
  {
    hide Among, ReconcileUser, RequestReset, CreateUser, PatchUser, Verify, ConsumeReset, FinishReset, Accept, Decline,
         Uninvite, ExpireInvitation, FoundOrganization, ChangeRole, RemoveMember;
    match step
    case DoReconcile(name, draw, reread) =>
      ReconcileTouches(cfg, s, name, draw, reread);
      hide Next;
      SameInvitations(s, Next(cfg, s, step));
    case DoDeleteInvitation(key) => RemovalsLeaveFewer(s, key);
    case DoExpireInvitation(key) => RemovalsLeaveFewer(s, key);
    case DoAccept(subject, organization) => AnswersLeaveFewer(s, subject, organization);
    case DoDecline(subject, organization) => AnswersLeaveFewer(s, subject, organization);
    case DoRemoveMember(key) => RemovalsLeaveFewer(s, key);
    case _ => SameInvitations(s, Next(cfg, s, step));
  }

  lemma SameInvitations(s: State, t: State)
    requires t.invitations == s.invitations
    ensures Among(t, s)
  {
  }

  lemma RemovalsLeaveFewer(s: State, key: Name)
    ensures Among(Uninvite(s, key), s) && Among(ExpireInvitation(s, key), s) && Among(RemoveMember(s, key), s)
  {
    hide HasExpired;
  }

  lemma AnswersLeaveFewer(s: State, subject: string, organization: string)
    ensures Among(Accept(s, subject, organization), s) && Among(Decline(s, subject, organization), s)
  {
    hide InvitationOf, NamespaceOf;
  }

  lemma FewerInvitations(s: State, t: State)
    requires InvitationsApart(s) && Among(t, s)
    ensures InvitationsApart(t)
  {
  }

  lemma UpdateChangesNothing(cfg: Config, s: State, key: Name, invitation: Invitation, users: seq<string>)
    ensures UpdateInvitation(cfg, s, key, invitation, users) == s
  {
    if key in s.invitations {
      UpdatesAreNeverAdmitted(cfg, s, key, invitation, users);
    }
  }

  lemma InviteKeepsApart(cfg: Config, s: State, organization: string, email: string, role: MemberRole,
                         duration: Option<int>,
                         suffix: string, users: seq<string>)
    requires InvitationsApart(s)
    ensures InvitationsApart(Invite(cfg, s, organization, email, role, duration, suffix, users))
  {
    forall k | k in s.invitations && Some(k.namespace) == NamespaceOf(s.organizations, organization)
      && s.invitations[k].email == email
      ensures k in InvitationsFor(s, k.namespace, email)
    {
    }
  }

  /** Whatever the webhook asks of a user alone holds of every user. */
  ghost predicate UsersOk(cfg: Config, s: State) {
    forall n :: n in s.users ==>
      && cfg.address(s.users[n].email).Some?
      && DomainAllowed(cfg, cfg.address(s.users[n].email).value, s.users[n].hasVoucher)
  }

  lemma UsersStayOk(cfg: Config, s: State, step: Step)
    requires UsersOk(cfg, s)
    ensures UsersOk(cfg, Next(cfg, s, step))
  {
    hide UsersOk, ReconcileUser, CreateUser, PatchUser, Verify, RequestReset, ConsumeReset, FinishReset, Invite,
         UpdateInvitation, ExpireInvitation, Accept, Decline, FoundOrganization;
    match step
    case DoCreateUser(name, email, password, providerID, hasVoucher) =>
      AdmissionKeepsUsersOk(cfg, s, name, email, password, providerID, hasVoucher);
    case DoPatchUser(name, email, password) => AdmissionKeepsUsersOk(cfg, s, name, email, password, "", false);
    case _ =>
      StepKeepsUsers(cfg, s, step);
      hide Next;
      SameUsersStayOk(cfg, s, Next(cfg, s, step));
  }

  lemma SameUsersStayOk(cfg: Config, s: State, t: State)
    requires UsersOk(cfg, s) && SameUsers(s, t)
    ensures UsersOk(cfg, t)
  {
    hide DomainAllowed;
  }

  lemma AdmissionKeepsUsersOk(cfg: Config, s: State, name: string, email: string, password: string,
                              providerID: string, hasVoucher: bool)
    requires UsersOk(cfg, s)
    ensures UsersOk(cfg, Identity.CreateUser(cfg, s, name, email, password, providerID, hasVoucher))
    ensures UsersOk(cfg, Identity.PatchUser(cfg, s, name, email, password))
  {
    hide DomainAllowed;
  }

  /** So a user that is there is admitted again with any password. */
  lemma UsersAreAdmitted(cfg: Config, s: State, n: string, password: string)
    requires UsersApart(s) && UsersOk(cfg, s) && n in s.users
    ensures UserAdmitted(cfg, s, s.users[n].(password := password))
  {
    hide DomainAllowed;
  }

  /** Every step keeps the invariant. */
  lemma StepKeepsInv(cfg: Config, s: State, step: Step)
    requires Inv(s)
    ensures Inv(Next(cfg, s, step))
  {
    hide Next, UsersApart, SignUpsOk, RequestsApart, RequestsOwned, InvitationsApart;
    RequestsStayOwned(cfg, s, step);
    UsersStayApart(cfg, s, step);
    SignUpsStayOk(cfg, s, step);
    RequestsStayApart(cfg, s, step);
    InvitationsStayApart(cfg, s, step);
  }

  lemma InitKeepsInv(organizations: map<string, Organization>)
    ensures Inv(Init(organizations))
  {
  }
}
