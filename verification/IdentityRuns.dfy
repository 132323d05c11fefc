/** Runs of the identity system: what holds of every one of them. */
module IdentityRuns {
  import opened Wrappers
  import opened Identity
  import opened IdentityInvariants
  import BubbleBabble
  import Rbac
  import Authorization

  datatype Run = Run(states: seq<State>, steps: seq<Step>) {
    function Last(): State
      requires states != []
    {
      states[|states| - 1]
    }
  }

  ghost predicate IsRun(cfg: Config, run: Run) {
    && |run.states| == |run.steps| + 1
    && run.states[0] == Init(run.states[0].organizations)
    && forall i :: 0 <= i < |run.steps| ==>
         Enabled(run.states[i], run.steps[i]) && run.states[i + 1] == Next(cfg, run.states[i], run.steps[i])
  }

  /** How many of the first `k` steps are of a kind. */
  ghost function Count(run: Run, kind: (State, Step, State) -> bool, k: nat): nat
    requires k <= |run.steps| < |run.states|
  {
    if k == 0 then 0
    else Count(run, kind, k - 1) + if kind(run.states[k - 1], run.steps[k - 1], run.states[k]) then 1 else 0
  }

  function Shorter(run: Run): Run
    requires |run.states| == |run.steps| + 1 && run.steps != []
  {
    Run(run.states[..|run.states| - 1], run.steps[..|run.steps| - 1])
  }

  lemma ShorterIsRun(cfg: Config, run: Run)
    requires IsRun(cfg, run) && run.steps != []
    ensures IsRun(cfg, Shorter(run))
    ensures run.Last() == Next(cfg, Shorter(run).Last(), run.steps[|run.steps| - 1])
    ensures Shorter(run).states == run.states[..|run.steps|] && Shorter(run).steps == run.steps[..|run.steps| - 1]
  {
    hide Next, Enabled;
  }

  /** Every reachable state satisfies the invariant. */
  lemma {:induction false} RunKeepsInv(cfg: Config, run: Run)
    requires IsRun(cfg, run)
    ensures Inv(run.Last())
    decreases |run.steps|
  {
    hide Next, Inv;
    if run.steps == [] {
      InitKeepsInv(run.states[0].organizations);
    } else {
      ShorterIsRun(cfg, run);
      RunKeepsInv(cfg, Shorter(run));
      StepKeepsInv(cfg, Shorter(run).Last(), run.steps[|run.steps| - 1]);
    }
  }

  lemma {:induction false} EveryStateKeepsInv(cfg: Config, run: Run, i: nat)
    requires IsRun(cfg, run) && i < |run.states|
    ensures Inv(run.states[i])
    decreases |run.steps|
  {
    hide Next, Inv;
    if i == |run.steps| {
      RunKeepsInv(cfg, run);
    } else {
      ShorterIsRun(cfg, run);
      EveryStateKeepsInv(cfg, Shorter(run), i);
    }
  }

  lemma {:induction false} RunKeepsUsersOk(cfg: Config, run: Run)
    requires IsRun(cfg, run)
    ensures UsersOk(cfg, run.Last())
    decreases |run.steps|
  {
    hide Next;
    if run.steps != [] {
      ShorterIsRun(cfg, run);
      RunKeepsUsersOk(cfg, Shorter(run));
      UsersStayOk(cfg, Shorter(run).Last(), run.steps[|run.steps| - 1]);
      hide UsersOk;
    }
  }

  lemma StepOfRun(cfg: Config, run: Run, i: nat)
    requires IsRun(cfg, run) && i < |run.steps|
    ensures |run.states| == |run.steps| + 1 && run.states[i + 1] == Next(cfg, run.states[i], run.steps[i])
  {
    hide Next, Enabled;
  }

  // ---------- addresses ----------

  lemma {:induction false} AtMostOne<T>(xs: set<T>)
    requires forall x, y :: x in xs && y in xs ==> x == y
    ensures |xs| <= 1
  {
    if xs != {} {
      var x :| x in xs;
      assert xs == {x};
    }
  }

  /** In no reachable state do login or a password reset find more than one user with an address, nor does
      a subject have two invitations to one namespace. */
  lemma ListsFindAtMostOne(cfg: Config, run: Run, email: string, namespace: string)
    requires IsRun(cfg, run)
    ensures |UsersWithEmail(run.Last(), email)| <= 1
    ensures |InvitationsFor(run.Last(), namespace, email)| <= 1
  {
    RunKeepsInv(cfg, run);
    AtMostOne(UsersWithEmail(run.Last(), email));
    AtMostOne(InvitationsFor(run.Last(), namespace, email));
  }

  // ---------- ready means verified ----------

  ghost predicate HasVerifiedSignUp(s: State, n: string) {
    SignUp(n) in s.requests && IsTrue(s.requests[SignUp(n)].conditions, VERIFIED)
  }

  ghost predicate IsReady(s: State, n: string) {
    n in s.users && IsTrue(s.users[n].conditions, READY)
  }

  /** The step is a verification that presents the code of the user's own sign-up request, when that is
      the only request with the code, at most half an hour after the request was created. */
  ghost predicate Marks(s: State, step: Step, n: string, uid: nat) {
    && step.DoVerify?
    && step.isAccount
    && n in s.users && s.users[n].uid == uid
    && SignUp(n) in s.requests
    && var r := s.requests[SignUp(n)];
       && r.owner == Owner(n, uid)
       && r.code == step.code
       && RequestsWithCode(s, step.code) == {SignUp(n)}
       && s.now <= r.created + 1800
  }

  ghost predicate MarkedIn(run: Run, n: string, uid: nat) {
    exists i :: 0 <= i < |run.steps| && i < |run.states| && Marks(run.states[i], run.steps[i], n, uid)
  }

  lemma VerifyMarks(s: State, isAccount: bool, code: string, n: string)
    requires SignUpsOk(s) && SignUp(n) in s.requests
      && Verify(s, isAccount, code).requests[SignUp(n)] != s.requests[SignUp(n)]
    ensures n in s.users && Marks(s, DoVerify(isAccount, code), n, s.users[n].uid)
  {
    hide SignUp, SignUpBody, SetCondition;
    assert SignUpOk(s, n);
    assert SIGN_UP_SECONDS == 1800;
    var name := TheOnly(RequestsWithCode(s, code)).value;
    assert name in RequestsWithCode(s, code);
  }

  lemma ReconcileVerifiesNothing(cfg: Config, s: State, name: string, draw: Draw, reread: bool, n: string)
    requires HasVerifiedSignUp(ReconcileUser(cfg, s, name, draw, reread), n)
    ensures HasVerifiedSignUp(s, n)
  {
    ReconcileTouches(cfg, s, name, draw, reread);
    SignUpInjective(n, name);
    if name in s.users {
      ReconciledRequest(cfg, s, name, draw, reread);
      SignUpRequestConditions(s, name, draw);
    }
    hide ReconcileUser, SignUpRequest, SignUp;
  }

  lemma SignUpRequestConditions(s: State, name: string, draw: Draw)
    requires name in s.users
    ensures SignUpRequest(s, name, draw).conditions ==
      if SignUp(name) in s.requests then s.requests[SignUp(name)].conditions else map[]
  {
  }

  /** A sign-up request becomes verified by a step that marks it. */
  lemma OnlyMarksVerify(cfg: Config, s: State, step: Step, n: string)
    requires Inv(s) && !HasVerifiedSignUp(s, n) && HasVerifiedSignUp(Next(cfg, s, step), n)
    ensures n in s.users && Marks(s, step, n, s.users[n].uid)
  {
    hide SignUp, ReconcileUser, CreateUser, PatchUser, Verify, RequestReset, ConsumeReset, FinishReset, Invite,
         UpdateInvitation, ExpireInvitation, Accept, Decline, FoundOrganization, IsTrue, Marks;
    match step
    case DoReconcile(name, draw, reread) => ReconcileVerifiesNothing(cfg, s, name, draw, reread, n);
    case DoVerify(isAccount, code) => VerifyMarks(s, isAccount, code, n);
    case DoRequestReset(address, draw, suffix) => ResetVerifiesNothing(cfg, s, address, draw, suffix, n);
    case DoConsumeReset(code, password) => ConsumeRemoves(s, code, password);
    case _ =>
  }

  lemma ResetVerifiesNothing(cfg: Config, s: State, address: string, draw: Draw, suffix: string, n: string)
    requires HasVerifiedSignUp(RequestReset(cfg, s, address, draw, suffix), n)
    ensures HasVerifiedSignUp(s, n)
  {
    SignUpIsNotReset(n, suffix);
    hide SignUp, PasswordReset, ResetBody, UsersWithEmail, BubbleBabble.Encode;
  }

  /** What reconciliation makes of the ready condition of its user. */
  lemma ReconciledReady(cfg: Config, s: State, name: string, draw: Draw, reread: bool)
    requires name in s.users
    ensures IsReady(s, name) ==> IsReady(ReconcileUser(cfg, s, name, draw, reread), name)
    ensures IsDockyards(s.users[name]) && IsReady(ReconcileUser(cfg, s, name, draw, reread), name) ==>
      IsReady(s, name) || HasVerifiedSignUp(s, name)
  {
    hide SignUp, SignUpRequest, ProviderKnown, Settled;
    var s1 := Introduced(s, name);
    var s2 := AfterVerification(s1, name, draw);
    SameRequest(s, s1, name, draw);
    SignUpRequestConditions(s, name, draw);
    SettledReady(s2, name);
  }

  lemma SettledReady(s: State, name: string)
    requires name in s.users
    ensures IsReady(Settled(s, name), name) <==> IsReady(s, name)
  {
    hide SignUp, Rbac.ApplyWrites, Authorization.UserWrites;
    assert READY != AUTHORIZED;
  }

  /** A user that is in both states has the same conditions; a new one has none. */
  ghost predicate SameConditions(s: State, t: State, n: string) {
    n in t.users ==> t.users[n].conditions == if n in s.users then s.users[n].conditions else map[]
  }

  lemma SameUsersSameConditions(s: State, t: State, n: string)
    requires t.users == s.users
    ensures SameConditions(s, t, n)
  {
  }

  lemma FinishSetsNoCondition(cfg: Config, s: State, uid: nat, n: string)
    ensures SameConditions(s, FinishReset(cfg, s, uid), n)
  {
    hide UserAdmitted, InTime;
  }

  lemma AdmissionSetsNoCondition(cfg: Config, s: State, name: string, email: string, password: string,
                                 providerID: string, hasVoucher: bool, n: string)
    ensures SameConditions(s, Identity.CreateUser(cfg, s, name, email, password, providerID, hasVoucher), n)
    ensures SameConditions(s, Identity.PatchUser(cfg, s, name, email, password), n)
  {
    hide UserAdmitted;
  }

  /** Only reconciliation touches the conditions of users. */
  lemma OnlyReconcileSetsConditions(cfg: Config, s: State, step: Step, n: string)
    requires !step.DoReconcile?
    ensures SameConditions(s, Next(cfg, s, step), n)
  {
    hide CreateUser, PatchUser, ReconcileUser, Verify, RequestReset, ConsumeReset, FinishReset, Invite,
         UpdateInvitation, ExpireInvitation, Accept, Decline, SameConditions;
    match step
    case DoCreateUser(name, email, password, providerID, hasVoucher) =>
      AdmissionSetsNoCondition(cfg, s, name, email, password, providerID, hasVoucher, n);
    case DoPatchUser(name, email, password) => AdmissionSetsNoCondition(cfg, s, name, email, password, "", false, n);
    case DoFinishReset(uid) => FinishSetsNoCondition(cfg, s, uid, n);
    case _ => SameUsersSameConditions(s, Next(cfg, s, step), n);
  }

  /** A dockyards user becomes ready only when its sign-up request is verified. */
  lemma OnlyVerifiedBecomeReady(cfg: Config, s: State, step: Step, n: string)
    requires !IsReady(s, n) && IsReady(Next(cfg, s, step), n) && IsDockyards(Next(cfg, s, step).users[n])
    ensures HasVerifiedSignUp(s, n)
  {
    if step.DoReconcile? {
      ReconcileTouches(cfg, s, step.name, step.draw, step.reread);
      assert n in s.users;
      SameProvider(s, Next(cfg, s, step), n);
      if step.name == n {
        ReconciledReady(cfg, s, n, step.draw, step.reread);
      }
      hide ReconcileUser, SignUp, IsDockyards;
    } else {
      OnlyReconcileSetsConditions(cfg, s, step, n);
      hide Next;
    }
  }

  lemma SameProvider(s: State, t: State, n: string)
    requires n in s.users && n in t.users && s.users[n].providerID == t.users[n].providerID
    ensures IsDockyards(s.users[n]) <==> IsDockyards(t.users[n])
  {
  }

  lemma MarkedLater(cfg: Config, run: Run, n: string, uid: nat)
    requires IsRun(cfg, run) && run.steps != []
    requires MarkedIn(Shorter(run), n, uid)
    ensures MarkedIn(run, n, uid)
  {
    hide Marks;
    ShorterIsRun(cfg, run);
    hide IsRun;
    var i :| 0 <= i < |Shorter(run).steps| && i < |Shorter(run).states|
      && Marks(Shorter(run).states[i], Shorter(run).steps[i], n, uid);
    assert Marks(run.states[i], run.steps[i], n, uid);
  }

  lemma {:induction false} VerifiedWasMarked(cfg: Config, run: Run, n: string)
    requires IsRun(cfg, run) && HasVerifiedSignUp(run.Last(), n)
    ensures n in run.Last().users && MarkedIn(run, n, run.Last().users[n].uid)
    decreases |run.steps|
  {
    hide Next, Marks, MarkedIn, Inv;
    if run.steps != [] {
      var before, step := Shorter(run), run.steps[|run.steps| - 1];
      ShorterIsRun(cfg, run);
      RunKeepsInv(cfg, before);
      UsersStay(cfg, before.Last(), step);
      if HasVerifiedSignUp(before.Last(), n) {
        VerifiedWasMarked(cfg, before, n);
        MarkedLater(cfg, run, n, run.Last().users[n].uid);
      } else {
        OnlyMarksVerify(cfg, before.Last(), step, n);
        MarkedNow(cfg, run, n, before.Last().users[n].uid);
      }
    }
  }

  lemma MarkedNow(cfg: Config, run: Run, n: string, uid: nat)
    requires IsRun(cfg, run) && run.steps != []
    requires Marks(Shorter(run).Last(), run.steps[|run.steps| - 1], n, uid)
    ensures MarkedIn(run, n, uid)
  {
    hide Marks, Next;
    var i := |run.steps| - 1;
    assert run.states[i] == Shorter(run).Last();
  }

  /** In every run: a ready dockyards user has, by an earlier step, had its own sign-up request verified with
      its code, which no other request had, within half an hour of the request's creation. */
  lemma {:induction false} ReadyWasVerified(cfg: Config, run: Run, n: string)
    requires IsRun(cfg, run) && IsReady(run.Last(), n) && IsDockyards(run.Last().users[n])
    ensures MarkedIn(run, n, run.Last().users[n].uid)
    decreases |run.steps|
  {
    hide Next, Marks, MarkedIn, Inv, IsDockyards;
    if run.steps != [] {
      var before, step := Shorter(run), run.steps[|run.steps| - 1];
      ShorterIsRun(cfg, run);
      RunKeepsInv(cfg, before);
      UsersStay(cfg, before.Last(), step);
      if IsReady(before.Last(), n) {
        SameProvider(before.Last(), run.Last(), n);
        ReadyWasVerified(cfg, before, n);
      } else {
        OnlyVerifiedBecomeReady(cfg, before.Last(), step, n);
        VerifiedWasMarked(cfg, before, n);
      }
      MarkedLater(cfg, run, n, run.Last().users[n].uid);
    }
  }

  /** The users that a login with an address and a password may be for. */
  function LoginUsers(s: State, email: string): set<string> {
    set n | n in s.users && s.users[n].email == email && s.users[n].providerID == DOCKYARDS
  }

  /** In every run: a user that can log in is the only one that login finds, and its sign-up request has been
      verified. Its address may have been changed since. */
  lemma LoginWasVerified(cfg: Config, run: Run, email: string, n: string)
    requires IsRun(cfg, run) && n in LoginUsers(run.Last(), email) && IsReady(run.Last(), n)
    ensures LoginUsers(run.Last(), email) == {n}
    ensures MarkedIn(run, n, run.Last().users[n].uid)
  {
    hide MarkedIn, Next, SignUpsOk, RequestsApart, InvitationsApart;
    RunKeepsInv(cfg, run);
    ReadyWasVerified(cfg, run, n);
  }

  // ---------- what never changes ----------

  /** A user that is ready stays ready. */
  lemma ReadyStaysReady(cfg: Config, s: State, step: Step, n: string)
    requires IsReady(s, n)
    ensures IsReady(Next(cfg, s, step), n)
  {
    if step.DoReconcile? {
      ReconcileTouches(cfg, s, step.name, step.draw, step.reread);
      if step.name == n {
        ReconciledReady(cfg, s, n, step.draw, step.reread);
      }
      hide ReconcileUser, SignUp;
    } else {
      UsersStay(cfg, s, step);
      OnlyReconcileSetsConditions(cfg, s, step, n);
      hide Next;
    }
  }

  /** The sign-up request of a user, if it is in both states, is the same object with the same code. */
  ghost predicate SameCode(s: State, t: State, n: string) {
    SignUp(n) in s.requests && SignUp(n) in t.requests ==>
      && t.requests[SignUp(n)].uid == s.requests[SignUp(n)].uid
      && t.requests[SignUp(n)].code == s.requests[SignUp(n)].code
  }

  lemma SameRequestsSameCode(s: State, t: State, n: string)
    requires forall r :: r in t.requests && r in s.requests ==>
      t.requests[r] == s.requests[r].(conditions := t.requests[r].conditions)
    ensures SameCode(s, t, n)
  {
    hide SignUp;
  }

  lemma OthersKeepCode(s: State, t: State, n: string)
    requires t.requests == s.requests
    ensures SameCode(s, t, n)
  {
  }

  lemma StepKeepsCode(cfg: Config, s: State, step: Step, n: string)
    requires SignUpsOk(s)
    ensures SameCode(s, Next(cfg, s, step), n)
  {
    hide SignUp, ReconcileUser, CreateUser, PatchUser, Verify, RequestReset, ConsumeReset, FinishReset, Invite,
         UpdateInvitation, ExpireInvitation, Accept, Decline, FoundOrganization, SignUpsOk, SameCode;
    match step
    case DoReconcile(name, draw, reread) => ReconcileKeepsCode(cfg, s, name, draw, reread, n);
    case DoVerify(isAccount, code) =>
      VerifyChangesConditions(s, isAccount, code);
      SameRequestsSameCode(s, Next(cfg, s, step), n);
    case DoRequestReset(address, draw, suffix) => ResetKeepsSignUp(cfg, s, address, draw, suffix, n);
    case DoConsumeReset(code, password) =>
      ConsumeRemoves(s, code, password);
      SameRequestsSameCode(s, Next(cfg, s, step), n);
    case _ => OthersKeepCode(s, Next(cfg, s, step), n);
  }

  lemma ReconcileKeepsCode(cfg: Config, s: State, name: string, draw: Draw, reread: bool, n: string)
    requires SignUpsOk(s)
    ensures SameCode(s, ReconcileUser(cfg, s, name, draw, reread), n)
  {
    ReconcileTouches(cfg, s, name, draw, reread);
    SignUpInjective(n, name);
    if name == n && SignUp(n) in s.requests {
      assert SignUpOk(s, n);
      ReconciledRequest(cfg, s, name, draw, reread);
      SignUpRequestKeepsCode(s, name, draw);
    }
    hide ReconcileUser, SignUp, SignUpRequest, SignUpBody;
  }

  /** As long as a sign-up request lives, its code and its text stay as they are. */
  lemma SignUpCodeStays(cfg: Config, s: State, step: Step, n: string)
    requires Inv(s) && SignUp(n) in s.requests && SignUp(n) in Next(cfg, s, step).requests
    ensures var r, r' := s.requests[SignUp(n)], Next(cfg, s, step).requests[SignUp(n)];
      && r'.uid == r.uid && r'.code == r.code && r'.bodyText == r.bodyText
      && |SIGN_UP_TEXT| + |r.code| <= |r.bodyText|
      && r.bodyText[|SIGN_UP_TEXT|..|SIGN_UP_TEXT| + |r.code|] == r.code
  {
    assert SignUpOk(s, n);
    SignUpTextSpellsCode(s.requests[SignUp(n)].code);
    StepKeepsInv(cfg, s, step);
    StepKeepsCode(cfg, s, step, n);
    assert SignUpOk(Next(cfg, s, step), n);
    hide SignUp, SignUpBody, Next;
  }

  lemma SignUpRequestKeepsCode(s: State, name: string, draw: Draw)
    requires name in s.users && SignUp(name) in s.requests && s.requests[SignUp(name)].code != ""
    ensures SignUpRequest(s, name, draw).code == s.requests[SignUp(name)].code
    ensures SignUpRequest(s, name, draw).uid == s.requests[SignUp(name)].uid
  {
  }

  lemma ResetKeepsSignUp(cfg: Config, s: State, address: string, draw: Draw, suffix: string, n: string)
    ensures SameCode(s, RequestReset(cfg, s, address, draw, suffix), n)
  {
    SignUpIsNotReset(n, suffix);
    hide SignUp, PasswordReset, ResetBody, UsersWithEmail, BubbleBabble.Encode;
  }

  lemma TimeGoesOn(cfg: Config, s: State, step: Step)
    ensures Next(cfg, s, step).now == if step.DoTick? then s.now + step.seconds else s.now
  {
    hide ReconcileUser, CreateUser, PatchUser, Verify, RequestReset, ConsumeReset, FinishReset, Invite,
         UpdateInvitation, ExpireInvitation, Accept, Decline, FoundOrganization, ChangeRole;
    if step.DoReconcile? {
      ReconcileTouches(cfg, s, step.name, step.draw, step.reread);
    }
  }

  /** Users from elsewhere never have a sign-up request. */
  lemma OthersHaveNoSignUp(cfg: Config, run: Run, n: string)
    requires IsRun(cfg, run) && n in run.Last().users && !IsDockyards(run.Last().users[n])
    ensures SignUp(n) !in run.Last().requests
  {
    RunKeepsInv(cfg, run);
    assert SignUp(n) in run.Last().requests ==> SignUpOk(run.Last(), n);
  }
}
