/** Reconciling users comes to rest: whatever the state, at most two reconciliations of a user change it. */
module IdentityFixpoint {
  import opened Wrappers
  import opened Identity
  import opened IdentityInvariants
  import opened IdentityRuns
  import BubbleBabble
  import Rbac
  import Authorization
  import AuthorizationRuns

  // ---------- when there is nothing left to do ----------

  /** A ready user with its roles written and its request gone. */
  ghost predicate IsSettled(s: State, n: string)
    requires n in s.users
  {
    && SignUp(n) !in s.requests
    && Rbac.Holds(s.rbac, Authorization.UserWrites(n))
    && AUTHORIZED in s.users[n].conditions
    && var c := s.users[n].conditions[AUTHORIZED]; c == Condition(True, "Ready", "", c.lastTransition)
  }

  /** A sign-up request that says what it should. */
  ghost predicate IsAsked(s: State, n: string) {
    && SignUp(n) in s.requests
    && var r := s.requests[SignUp(n)];
       && r.code != "" && r.subject == "Email Verification" && r.bodyText == SignUpBody(r.code) && r.userRef == n
       && r.duration == Some(SIGN_UP_SECONDS)
  }

  /** A user waits for nothing but an external step: it is gone, from an unknown provider, settled, or not
      ready with its request out. (A user from elsewhere that is marked not ready has nothing to wait for.) */
  ghost predicate Quiet(cfg: Config, s: State, n: string) {
    n in s.users && (IsDockyards(s.users[n]) || ProviderKnown(cfg, s.users[n])) ==>
      && READY in s.users[n].conditions
      && (IsReady(s, n) ==> IsSettled(s, n))
      && (!IsReady(s, n) && IsDockyards(s.users[n]) ==> IsAsked(s, n) && !HasVerifiedSignUp(s, n))
  }

  // ---------- the parts of a reconciliation ----------

  lemma HoldsIffUnchanged(store: Rbac.Store, w: Rbac.Writes)
    ensures Rbac.ApplyWrites(store, w) == store <==> Rbac.Holds(store, w)
  {
    hide Rbac.Apply;
    if Rbac.ApplyWrites(store, w) == store {
      forall k | k in w ensures k in store && Rbac.Apply(w[k], store[k]) == store[k] {
        assert k in Rbac.ApplyWrites(store, w);
      }
    }
    if Rbac.Holds(store, w) {
      assert Rbac.ApplyWrites(store, w).Keys == store.Keys;
    }
  }

  lemma WritesHold(store: Rbac.Store, w: Rbac.Writes)
    ensures Rbac.Holds(Rbac.ApplyWrites(store, w), w)
  {
    forall k | k in w
      ensures k in Rbac.ApplyWrites(store, w)
      ensures Rbac.Apply(w[k], Rbac.ApplyWrites(store, w)[k]) == Rbac.ApplyWrites(store, w)[k]
    {
      Rbac.ApplyTwice(w[k], Rbac.Lookup(store, k));
    }
  }

  /** Settling makes a user settled, and changes one only if it is not. */
  lemma SettledIsSettled(s: State, n: string)
    requires n in s.users
    ensures IsSettled(Settled(s, n), n)
    ensures Settled(s, n) == s <==> IsSettled(s, n)
  {
    var w := Authorization.UserWrites(n);
    HoldsIffUnchanged(s.rbac, w);
    WritesHold(s.rbac, w);
    hide SignUp, Rbac.Holds, Rbac.ApplyWrites, Authorization.UserWrites;
    assert s.requests - {SignUp(n)} == s.requests <==> SignUp(n) !in s.requests;
    ConditionsUnchanged(s, n, AUTHORIZED, Condition(True, "Ready", "", s.now));
  }

  lemma ConditionsUnchanged(s: State, n: string, kind: string, c: Condition)
    requires n in s.users
    ensures SetUserCondition(s, n, kind, c) == s <==>
      SetCondition(s.users[n].conditions, kind, c) == s.users[n].conditions
    ensures SetCondition(s.users[n].conditions, kind, c) == s.users[n].conditions <==>
      kind in s.users[n].conditions && SetCondition(s.users[n].conditions, kind, c)[kind] == s.users[n].conditions[kind]
  {
    var after := SetCondition(s.users[n].conditions, kind, c);
    assert kind in after;
    if SetUserCondition(s, n, kind, c) == s {
      assert SetUserCondition(s, n, kind, c).users[n].conditions == after;
    }
    if kind in s.users[n].conditions && after[kind] == s.users[n].conditions[kind] {
      assert after == s.users[n].conditions;
    }
    if after == s.users[n].conditions {
      assert s.users[n := s.users[n].(conditions := after)] == s.users;
    }
  }

  /** The same for the request. */
  lemma RequestIsAsked(s: State, n: string, draw: Draw)
    requires n in s.users
    ensures IsAsked(WithSignUpRequest(s, n, draw), n)
    ensures WithSignUpRequest(s, n, draw) == s <==> IsAsked(s, n)
    ensures HasVerifiedSignUp(WithSignUpRequest(s, n, draw), n) <==> HasVerifiedSignUp(s, n)
  {
    CodesAreNotEmpty(draw);
    hide SignUp, SignUpBody, BubbleBabble.Encode;
    var t := WithSignUpRequest(s, n, draw);
    assert t.requests[SignUp(n)] == SignUpRequest(s, n, draw);
    if IsAsked(s, n) {
      assert SignUpRequest(s, n, draw) == s.requests[SignUp(n)];
      assert s.requests[SignUp(n) := s.requests[SignUp(n)]] == s.requests;
    }
  }

  /** Verification leaves a ready user alone, and a user that is not ready when its request is out and not
      verified; it makes a user ready exactly if its request is verified. */
  lemma AfterVerificationIs(s: State, n: string, draw: Draw)
    requires n in s.users && IsDockyards(s.users[n]) && !IsReady(s, n)
    ensures var t := AfterVerification(s, n, draw);
      && n in t.users
      && IsAsked(t, n)
      && (HasVerifiedSignUp(t, n) <==> HasVerifiedSignUp(s, n))
      && (IsReady(t, n) <==> HasVerifiedSignUp(s, n))
      && (t == s <==> IsAsked(s, n) && !HasVerifiedSignUp(s, n))
      && (READY in s.users[n].conditions ==> READY in t.users[n].conditions)
  {
    var t := WithSignUpRequest(s, n, draw);
    RequestIsAsked(s, n, draw);
    assert t.users == s.users;
    hide SignUp, SignUpBody, SignUpRequest, WithSignUpRequest;
    if HasVerifiedSignUp(t, n) {
      assert IsReady(Verified(t, n), n);
      assert Verified(t, n).requests == t.requests;
    }
  }

  lemma IntroducedIs(s: State, n: string)
    requires n in s.users
    ensures Introduced(s, n) == s <==> READY in s.users[n].conditions
    ensures IsReady(Introduced(s, n), n) <==>
      IsReady(s, n) || (READY !in s.users[n].conditions && !IsDockyards(s.users[n]))
    ensures IsDockyards(Introduced(s, n).users[n]) == IsDockyards(s.users[n])
    ensures Introduced(s, n).requests == s.requests && Introduced(s, n).rbac == s.rbac
  {
    hide IsDockyards;
    var user := s.users[n];
    assert user.(conditions := Introduced(s, n).users[n].conditions).providerID == user.providerID;
    SameProvider(s, Introduced(s, n), n);
  }

  // ---------- a reconciliation changes nothing if and only if the user is quiet ----------

  lemma QuietIsUnchanged(cfg: Config, s: State, n: string, draw: Draw, reread: bool)
    requires Quiet(cfg, s, n)
    ensures ReconcileUser(cfg, s, n, draw, reread) == s
  {
    hide SignUp, IsDockyards, ProviderKnown, IsSettled, IsAsked, Settled, Introduced, Authorization.UserWrites;
    if n in s.users && (IsDockyards(s.users[n]) || ProviderKnown(cfg, s.users[n])) {
      IntroducedIs(s, n);
      if IsReady(s, n) {
        SettledIsSettled(s, n);
      } else if IsDockyards(s.users[n]) {
        AfterVerificationIs(s, n, draw);
        hide AfterVerification;
      }
    }
  }

  // ---------- how far a user is from quiet ----------

  /** The number of reconciliations that can still change something: two for a user whose request is
      verified and who is not ready yet. */
  ghost function Rank(cfg: Config, s: State, n: string): nat {
    if Quiet(cfg, s, n) then 0
    else if n in s.users && IsDockyards(s.users[n]) && !IsReady(s, n) && HasVerifiedSignUp(s, n) then 2
    else 1
  }

  lemma SettledIsQuiet(cfg: Config, s: State, n: string)
    requires n in s.users && READY in s.users[n].conditions && IsReady(s, n)
    ensures Quiet(cfg, Settled(s, n), n)
  {
    SettledIsSettled(s, n);
    SettledReady(s, n);
    SettledTouches(s, n);
    hide SignUp, IsDockyards, ProviderKnown, IsSettled, IsAsked, Settled, HasVerifiedSignUp;
  }

  lemma SameKindOfUser(cfg: Config, s: State, t: State, n: string)
    requires n in s.users && n in t.users && s.users[n].providerID == t.users[n].providerID
    ensures IsDockyards(s.users[n]) == IsDockyards(t.users[n])
      && ProviderKnown(cfg, s.users[n]) == ProviderKnown(cfg, t.users[n])
  {
  }

  /** A dockyards user that is not ready: quiet after this reconciliation, or ready after it and quiet after
      the next. */
  lemma VerificationRanks(cfg: Config, s: State, n: string, draw: Draw, reread: bool)
    requires n in s.users && IsDockyards(s.users[n]) && !IsReady(s, n)
    ensures var t := ReconcileUser(cfg, s, n, draw, reread);
      && (reread || !HasVerifiedSignUp(s, n) ==> Quiet(cfg, t, n))
      && Rank(cfg, t, n) <= 1
  {
    var s1 := Introduced(s, n);
    IntroducedIs(s, n);
    var s2 := AfterVerification(s1, n, draw);
    AfterVerificationIs(s1, n, draw);
    AfterVerificationTouches(s1, n, draw);
    SameKindOfUser(cfg, s1, s2, n);
    hide SignUp, IsDockyards, ProviderKnown, Introduced, AfterVerification, IsAsked, Settled, IsSettled, Touches;
    if IsReady(s2, n) {
      SettledIsQuiet(cfg, s2, n);
    }
    assert HasVerifiedSignUp(s1, n) == HasVerifiedSignUp(s, n);
  }

  /** A reconciliation that changes something brings its user closer to quiet; with the condition read
      anew, it makes it quiet at once. */
  lemma ReconcileRanks(cfg: Config, s: State, n: string, draw: Draw, reread: bool)
    ensures var t := ReconcileUser(cfg, s, n, draw, reread);
      && (Quiet(cfg, s, n) ==> t == s)
      && (!Quiet(cfg, s, n) ==> Rank(cfg, t, n) < Rank(cfg, s, n))
      && (reread ==> Quiet(cfg, t, n))
  {
    if Quiet(cfg, s, n) {
      QuietIsUnchanged(cfg, s, n, draw, reread);
    } else if IsDockyards(s.users[n]) && !IsReady(s, n) {
      VerificationRanks(cfg, s, n, draw, reread);
      hide ReconcileUser, Quiet;
    } else {
      var s1 := Introduced(s, n);
      IntroducedIs(s, n);
      hide SignUp, IsDockyards, ProviderKnown, Introduced, IsAsked, Settled, IsSettled, HasVerifiedSignUp;
      SettledIsQuiet(cfg, s1, n);
    }
  }

  /** A reconciliation changes nothing if and only if its user is quiet, whatever it draws. */
  lemma UnchangedIffQuiet(cfg: Config, s: State, n: string, draw: Draw, reread: bool)
    ensures ReconcileUser(cfg, s, n, draw, reread) == s <==> Quiet(cfg, s, n)
  {
    ReconcileRanks(cfg, s, n, draw, reread);
    hide ReconcileUser, Quiet;
  }

  /** Both changes happen: a user whose request is verified, reconciled with the condition as it was taken
      before, is ready and still has the next reconciliation to come. */
  lemma TakenBeforeItTakesTwo(cfg: Config, s: State, n: string, draw: Draw, draw': Draw, reread: bool)
    requires n in s.users && IsDockyards(s.users[n]) && !IsReady(s, n) && HasVerifiedSignUp(s, n)
    ensures var t := ReconcileUser(cfg, s, n, draw, false);
      t != s && IsReady(t, n) && ReconcileUser(cfg, t, n, draw', reread) != t
  {
    var s1 := Introduced(s, n);
    IntroducedIs(s, n);
    var s2 := AfterVerification(s1, n, draw);
    AfterVerificationIs(s1, n, draw);
    AfterVerificationTouches(s1, n, draw);
    SameKindOfUser(cfg, s1, s2, n);
    UnchangedIffQuiet(cfg, s, n, draw, false);
    UnchangedIffQuiet(cfg, s2, n, draw', reread);
    hide SignUp, IsDockyards, ProviderKnown, Introduced, AfterVerification, Settled, Touches;
  }

  // ---------- other users ----------

  /** All that the rank of a user depends on. */
  ghost predicate SameFor(s: State, t: State, n: string) {
    && (n in s.users <==> n in t.users) && (n in s.users ==> t.users[n] == s.users[n])
    && (SignUp(n) in s.requests <==> SignUp(n) in t.requests)
       && (SignUp(n) in s.requests ==> t.requests[SignUp(n)] == s.requests[SignUp(n)])
    && forall k :: k in Authorization.UserWrites(n) ==>
      && (k in s.rbac <==> k in t.rbac)
      && (k in s.rbac ==> t.rbac[k] == s.rbac[k])
  }

  lemma SameRank(cfg: Config, s: State, t: State, n: string)
    requires SameFor(s, t, n)
    ensures Rank(cfg, t, n) == Rank(cfg, s, n)
  {
    hide SignUp, SignUpBody, IsDockyards, ProviderKnown, Authorization.UserWrites, Rbac.Apply;
  }

  lemma SettledWrites(s: State, n: string, k: Rbac.Key)
    requires n in s.users && k !in Authorization.UserWrites(n)
    ensures var t := Settled(s, n); (k in s.rbac <==> k in t.rbac) && (k in s.rbac ==> t.rbac[k] == s.rbac[k])
  {
    hide SignUp, Authorization.UserWrites;
  }

  lemma AfterVerificationWrites(s: State, n: string, draw: Draw)
    requires n in s.users
    ensures AfterVerification(s, n, draw).rbac == s.rbac
  {
    hide SignUp, SignUpRequest, IsDockyards;
  }

  lemma ReconcileWrites(cfg: Config, s: State, n: string, draw: Draw, reread: bool, k: Rbac.Key)
    requires k !in Authorization.UserWrites(n)
    ensures var t := ReconcileUser(cfg, s, n, draw, reread);
      && (k in s.rbac <==> k in t.rbac)
      && (k in s.rbac ==> t.rbac[k] == s.rbac[k])
  {
    if n in s.users {
      IntroducedIs(s, n);
      var s1 := Introduced(s, n);
      AfterVerificationWrites(s1, n, draw);
      SettledWrites(AfterVerification(s1, n, draw), n, k);
      hide Introduced, AfterVerification, Settled, IsDockyards, ProviderKnown, Authorization.UserWrites;
    }
  }

  lemma OthersKeepTheirRank(cfg: Config, s: State, m: string, draw: Draw, reread: bool, n: string)
    requires m != n
    ensures Rank(cfg, ReconcileUser(cfg, s, m, draw, reread), n) == Rank(cfg, s, n)
  {
    var t := ReconcileUser(cfg, s, m, draw, reread);
    ReconcileTouches(cfg, s, m, draw, reread);
    SignUpInjective(m, n);
    hide ReconcileUser, SignUp, Authorization.UserWrites, Rank;
    forall k | k in Authorization.UserWrites(n)
      ensures (k in s.rbac <==> k in t.rbac) && (k in s.rbac ==> t.rbac[k] == s.rbac[k])
    {
      if k in Authorization.UserWrites(m) {
        AuthorizationRuns.UsersApart(m, n, k);
      } else {
        ReconcileWrites(cfg, s, m, draw, reread, k);
      }
    }
    SameRank(cfg, s, t, n);
  }

  // ---------- runs without external steps ----------

  /** From any state at all, users are reconciled and time passes. */
  ghost predicate IsInternal(cfg: Config, run: Run) {
    && |run.states| == |run.steps| + 1
    && forall i :: 0 <= i < |run.steps| ==>
      && (run.steps[i].DoReconcile? || run.steps[i].DoTick?)
      && run.states[i + 1] == Next(cfg, run.states[i], run.steps[i])
  }

  ghost predicate Reconciles(run: Run, n: string, i: nat)
    requires i < |run.steps|
  {
    run.steps[i].DoReconcile? && run.steps[i].name == n
  }

  /** How many of the first `k` steps are reconciliations of the user that change something. */
  ghost function Changes(run: Run, n: string, k: nat): nat
    requires k <= |run.steps| < |run.states|
  {
    if k == 0 then 0
    else Changes(run, n, k - 1) + if Reconciles(run, n, k - 1) && run.states[k] != run.states[k - 1] then 1 else 0
  }

  lemma InternalRanks(cfg: Config, run: Run, n: string, i: nat)
    requires IsInternal(cfg, run) && i < |run.steps|
    ensures Rank(cfg, run.states[i + 1], n) <= Rank(cfg, run.states[i], n)
    ensures Reconciles(run, n, i) ==>
      Rank(cfg, run.states[i + 1], n) == 0 || Rank(cfg, run.states[i + 1], n) < Rank(cfg, run.states[i], n)
    ensures Reconciles(run, n, i) && run.states[i + 1] != run.states[i] ==>
      Rank(cfg, run.states[i + 1], n) < Rank(cfg, run.states[i], n)
  {
    var s := run.states[i];
    assert run.states[i + 1] == Next(cfg, s, run.steps[i]);
    match run.steps[i]
    case DoReconcile(m, draw, reread) =>
      hide Quiet, ReconcileUser;
      if m == n {
        ReconcileRanks(cfg, s, n, draw, reread);
      } else {
        hide Rank;
        OthersKeepTheirRank(cfg, s, m, draw, reread, n);
      }
    case DoTick(seconds) =>
      hide Rank;
      SameRank(cfg, s, run.states[i + 1], n);
  }

  lemma {:induction false} ChangesAreRanked(cfg: Config, run: Run, n: string, k: nat)
    requires IsInternal(cfg, run) && k <= |run.steps|
    ensures Changes(run, n, k) + Rank(cfg, run.states[k], n) <= Rank(cfg, run.states[0], n)
  {
    hide IsInternal, Rank, Reconciles;
    if k > 0 {
      ChangesAreRanked(cfg, run, n, k - 1);
      InternalRanks(cfg, run, n, k - 1);
    }
  }

  /** However long reconciliation goes on without an external step, from whatever state, at most two
      reconciliations of a user change the store. */
  lemma AtMostTwoChanges(cfg: Config, run: Run, n: string)
    requires IsInternal(cfg, run)
    ensures Changes(run, n, |run.steps|) <= 2
  {
    ChangesAreRanked(cfg, run, n, |run.steps|);
  }

  lemma {:induction false} RanksFall(cfg: Config, run: Run, n: string, i: nat, j: nat)
    requires IsInternal(cfg, run) && i <= j <= |run.steps|
    ensures Rank(cfg, run.states[j], n) <= Rank(cfg, run.states[i], n)
    decreases j
  {
    hide IsInternal, Rank;
    if i < j {
      RanksFall(cfg, run, n, i, j - 1);
      InternalRanks(cfg, run, n, j - 1);
    }
  }

  /** Once a reconciliation of a user has changed nothing, or there have been two of them, every later one
      changes nothing. */
  lemma ReconciliationComesToRest(cfg: Config, run: Run, n: string, i: nat, j: nat, k: nat)
    requires IsInternal(cfg, run) && i < k < |run.steps| && j < k
    requires Reconciles(run, n, i) && Reconciles(run, n, j) && Reconciles(run, n, k)
    requires i < j || run.states[i + 1] == run.states[i]
    ensures run.states[k + 1] == run.states[k]
  {
    assert run.states[k + 1] == Next(cfg, run.states[k], run.steps[k]);
    assert run.states[i + 1] == Next(cfg, run.states[i], run.steps[i]);
    UnchangedIffQuiet(cfg, run.states[i], n, run.steps[i].draw, run.steps[i].reread);
    UnchangedIffQuiet(cfg, run.states[k], n, run.steps[k].draw, run.steps[k].reread);
    InternalRanks(cfg, run, n, i);
    if i < j {
      RanksFall(cfg, run, n, i + 1, j);
      InternalRanks(cfg, run, n, j);
      RanksFall(cfg, run, n, j + 1, k);
    } else {
      RanksFall(cfg, run, n, i, k);
    }
    hide IsInternal, Quiet, ReconcileUser;
  }
}
