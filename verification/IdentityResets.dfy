/** Password resets: every write of a password uses up a request of its own. */
module IdentityResets {
  import opened Wrappers
  import opened Identity
  import opened IdentityInvariants
  import opened IdentityRuns
  import BubbleBabble

  ghost function Uids(s: State): set<nat> {
    set n | n in s.requests :: s.requests[n].uid
  }

  /** The step writes a password for a reset. */
  ghost predicate Writes(cfg: Config, s: State, step: Step) {
    step.DoFinishReset? && ResetWrites(cfg, s, step.uid)
  }

  /** The step creates a request: only one can be new, the one with the next UID. */
  ghost predicate Creates(s: State, t: State) {
    s.nextUid in Uids(t)
  }

  // ---------- one call ----------

  /** Passwords change by a reset or by an update of the user, never otherwise. */
  lemma OnlyResetsAndUpdatesWrite(cfg: Config, s: State, step: Step, n: string)
    requires n in s.users && n in Next(cfg, s, step).users
      && Next(cfg, s, step).users[n].password != s.users[n].password
    ensures Writes(cfg, s, step) || (step.DoPatchUser? && step.name == n)
  {
    hide ReconcileUser, Verify, RequestReset, ConsumeReset, Invite, UpdateInvitation, ExpireInvitation, Accept, Decline,
         FoundOrganization, UserAdmitted, InTime;
    match step
    case DoReconcile(name, draw, reread) => ReconcileTouches(cfg, s, name, draw, reread);
    case _ =>
  }

  // ---------- where UIDs go ----------

  lemma {:induction false} RemoveOne<K, V>(m: map<K, V>, k: K)
    ensures |m - {k}| == |m| - if k in m then 1 else 0
  {
    assert (m - {k}).Keys == m.Keys - {k};
    assert |(m - {k}).Keys| == |m - {k}| && |m.Keys| == |m|;
  }

  lemma AddOne<K, V>(m: map<K, V>, k: K, v: V)
    ensures |m[k := v]| == |m| + if k in m then 0 else 1
  {
    assert m[k := v].Keys == m.Keys + {k};
    assert |m[k := v].Keys| == |m[k := v]| && |m.Keys| == |m|;
  }

  lemma KeepsCount(s: State, t: State)
    requires t.requests.Keys == s.requests.Keys
    ensures |t.requests| == |s.requests|
  {
    assert |t.requests.Keys| == |t.requests| && |s.requests.Keys| == |s.requests|;
  }

  lemma OneKeyCounts<K, V>(m: map<K, V>, m': map<K, V>, k: K)
    requires m'.Keys - {k} == m.Keys - {k}
    ensures |m'| - (if k in m' then 1 else 0) == |m| - (if k in m then 1 else 0)
  {
    RemoveOne(m, k);
    RemoveOne(m', k);
    assert (m - {k}).Keys == (m' - {k}).Keys;
    assert |(m - {k}).Keys| == |m - {k}| && |(m' - {k}).Keys| == |m' - {k}|;
  }

  lemma OneRequestCounts(s: State, t: State, r: string)
    requires t.requests.Keys - {r} == s.requests.Keys - {r}
    requires r in t.requests && r !in s.requests ==> t.requests[r].uid == s.nextUid
    ensures |t.requests| <= |s.requests| + if Creates(s, t) then 1 else 0
  {
    OneKeyCounts(s.requests, t.requests, r);
    if r in t.requests && r !in s.requests {
      assert t.requests[r].uid in Uids(t);
    }
  }

  /** Requests, and resets under way. */
  ghost function Outstanding(s: State): nat {
    |s.requests| + |s.resets|
  }

  /** What is outstanding grows by no more than the request that is created, if there is one. */
  ghost predicate NoGain(s: State, t: State) {
    Outstanding(t) <= Outstanding(s) + if Creates(s, t) then 1 else 0
  }

  lemma ReconcileCounts(cfg: Config, s: State, name: string, draw: Draw, reread: bool)
    ensures NoGain(s, ReconcileUser(cfg, s, name, draw, reread))
  {
    ReconcileTouches(cfg, s, name, draw, reread);
    if name in s.users {
      ReconciledRequest(cfg, s, name, draw, reread);
      SignUpRequestUid(s, name, draw);
      hide ReconcileUser, SignUpRequest, SignUp, Creates;
      assert ReconcileUser(cfg, s, name, draw, reread).requests.Keys - {SignUp(name)}
        == s.requests.Keys - {SignUp(name)};
      OneRequestCounts(s, ReconcileUser(cfg, s, name, draw, reread), SignUp(name));
    }
  }

  lemma ResetCounts(cfg: Config, s: State, address: string, draw: Draw, suffix: string)
    ensures NoGain(s, RequestReset(cfg, s, address, draw, suffix))
  {
    hide PasswordReset, ResetBody, UsersWithEmail, BubbleBabble.Encode;
    var t := RequestReset(cfg, s, address, draw, suffix);
    if t != s {
      var r := PasswordReset(suffix);
      assert t.requests == s.requests[r := t.requests[r]] && t.requests[r].uid == s.nextUid;
      AddOne(s.requests, r, t.requests[r]);
    }
  }

  lemma VerifyCounts(s: State, isAccount: bool, code: string)
    ensures NoGain(s, Verify(s, isAccount, code))
  {
    hide Verify, Creates;
    KeepsCount(s, Verify(s, isAccount, code));
  }

  lemma ConsumeCounts(s: State, code: string, password: string)
    requires RequestsApart(s)
    ensures NoGain(s, ConsumeReset(s, code, password))
  {
    hide Creates;
    match TheOnly(RequestsWithCode(s, code))
    case None =>
    case Some(name) =>
      assert name in RequestsWithCode(s, code);
      RemoveOne(s.requests, name);
      AddOne(s.resets, s.requests[name].uid, Reset(s.requests[name], password));
  }

  lemma FinishCounts(cfg: Config, s: State, uid: nat)
    ensures Outstanding(FinishReset(cfg, s, uid)) + (if ResetWrites(cfg, s, uid) then 1 else 0) <= Outstanding(s)
  {
    hide UserAdmitted, InTime;
    RemoveOne(s.resets, uid);
  }

  lemma OthersCount(s: State, t: State)
    requires t.requests == s.requests && t.resets == s.resets
    ensures NoGain(s, t)
  {
  }

  /** No step gains on what it creates: requests, resets under way and passwords written add up to no more
      than before, plus one for a request created. */
  lemma StepConserves(cfg: Config, s: State, step: Step)
    requires RequestsApart(s)
    ensures var t := Next(cfg, s, step);
      Outstanding(t) + (if Writes(cfg, s, step) then 1 else 0) <= Outstanding(s) + (if Creates(s, t) then 1 else 0)
  {
    hide ReconcileUser, CreateUser, PatchUser, Verify, RequestReset, ConsumeReset, FinishReset, Invite,
         UpdateInvitation, ExpireInvitation, Accept, Decline, FoundOrganization, ResetWrites, Creates, RequestsApart,
         Outstanding;
    match step
    case DoReconcile(name, draw, reread) => ReconcileCounts(cfg, s, name, draw, reread);
    case DoRequestReset(address, draw, suffix) => ResetCounts(cfg, s, address, draw, suffix);
    case DoVerify(isAccount, code) => VerifyCounts(s, isAccount, code);
    case DoConsumeReset(code, password) => ConsumeCounts(s, code, password);
    case DoFinishReset(uid) => FinishCounts(cfg, s, uid);
    case _ => OthersCount(s, Next(cfg, s, step));
  }

  // ---------- runs ----------

  ghost function PasswordWrites(cfg: Config): (State, Step, State) -> bool {
    (s, step, t) => Writes(cfg, s, step)
  }

  ghost function RequestCreations(): (State, Step, State) -> bool {
    (s, step, t) => Creates(s, t)
  }

  /** In every run, at any time: passwords written by resets, requests that are there and resets under way
      add up to no more than the requests created. */
  lemma {:induction false} WritesNeverExceedRequests(cfg: Config, run: Run, k: nat)
    requires IsRun(cfg, run) && k <= |run.steps|
    ensures Count(run, PasswordWrites(cfg), k) + Outstanding(run.states[k]) <= Count(run, RequestCreations(), k)
  {
    hide Next, IsRun, Writes, Creates;
    if k > 0 {
      WritesNeverExceedRequests(cfg, run, k - 1);
      StepOfRun(cfg, run, k - 1);
      RequestsOfRun(cfg, run, k - 1);
      StepConserves(cfg, run.states[k - 1], run.steps[k - 1]);
    } else {
      StartsEmpty(cfg, run);
    }
  }

  lemma StartsEmpty(cfg: Config, run: Run)
    requires IsRun(cfg, run)
    ensures Outstanding(run.states[0]) == 0
  {
    hide Next, Enabled;
  }

  lemma RequestsOfRun(cfg: Config, run: Run, i: nat)
    requires IsRun(cfg, run) && i < |run.states|
    ensures RequestsApart(run.states[i])
  {
    EveryStateKeepsInv(cfg, run, i);
  }

  // ---------- request by request ----------

  /** A UID that has been given out and is not that of a request. */
  ghost predicate NoRequest(s: State, u: nat) {
    u < s.nextUid && u !in Uids(s)
  }

  lemma ReconcileNoRequest(cfg: Config, s: State, name: string, draw: Draw, reread: bool, u: nat)
    requires NoRequest(s, u)
    ensures NoRequest(ReconcileUser(cfg, s, name, draw, reread), u)
  {
    var t, r := ReconcileUser(cfg, s, name, draw, reread), SignUp(name);
    ReconcileTouches(cfg, s, name, draw, reread);
    if name in s.users {
      ReconciledRequest(cfg, s, name, draw, reread);
      SignUpRequestUid(s, name, draw);
    }
    hide ReconcileUser, SignUpRequest, SignUp;
    forall n | n in t.requests ensures t.requests[n].uid != u {
      if n in s.requests {
        assert s.requests[n].uid in Uids(s);
      }
    }
  }

  lemma ResetNoRequest(cfg: Config, s: State, address: string, draw: Draw, suffix: string, u: nat)
    requires NoRequest(s, u)
    ensures NoRequest(RequestReset(cfg, s, address, draw, suffix), u)
  {
    hide PasswordReset, ResetBody, UsersWithEmail, BubbleBabble.Encode;
    var t := RequestReset(cfg, s, address, draw, suffix);
    forall n | n in t.requests ensures t.requests[n].uid != u {
      if n in s.requests && t.requests[n] == s.requests[n] {
        assert s.requests[n].uid in Uids(s);
      }
    }
  }

  /** UIDs are not given out twice: what is no request never becomes one, and what is gone stays gone. */
  lemma GoneStays(cfg: Config, s: State, step: Step, u: nat)
    requires NoRequest(s, u)
    ensures NoRequest(Next(cfg, s, step), u)
    ensures u !in s.resets ==> u !in Next(cfg, s, step).resets
  {
    hide ReconcileUser, CreateUser, PatchUser, Verify, RequestReset, ConsumeReset, FinishReset, Invite,
         UpdateInvitation, ExpireInvitation, Accept, Decline, FoundOrganization;
    match step
    case DoReconcile(name, draw, reread) =>
      ReconcileNoRequest(cfg, s, name, draw, reread, u);
      ReconcileTouches(cfg, s, name, draw, reread);
    case DoRequestReset(address, draw, suffix) => ResetNoRequest(cfg, s, address, draw, suffix, u);
    case DoVerify(isAccount, code) => VerifyChangesConditions(s, isAccount, code);
    case DoConsumeReset(code, password) => ConsumeNoRequest(s, code, password, u);
    case _ =>
  }

  lemma ConsumeNoRequest(s: State, code: string, password: string, u: nat)
    requires NoRequest(s, u)
    ensures NoRequest(ConsumeReset(s, code, password), u)
    ensures u !in s.resets ==> u !in ConsumeReset(s, code, password).resets
  {
    match TheOnly(RequestsWithCode(s, code))
    case None =>
    case Some(name) =>
      assert name in RequestsWithCode(s, code);
      assert s.requests[name].uid in Uids(s);
  }

  lemma {:induction false} GoneForGood(cfg: Config, run: Run, i: nat, j: nat, u: nat)
    requires IsRun(cfg, run) && i <= j < |run.states| && NoRequest(run.states[i], u)
    ensures NoRequest(run.states[j], u)
    ensures u !in run.states[i].resets ==> u !in run.states[j].resets
    decreases j
  {
    hide Next, NoRequest, Enabled;
    if i < j {
      GoneForGood(cfg, run, i, j - 1, u);
      GoneStays(cfg, run.states[j - 1], run.steps[j - 1], u);
      assert run.states[(j - 1) + 1] == Next(cfg, run.states[j - 1], run.steps[j - 1]);
    }
  }

  lemma ResetIsNoRequest(s: State, u: nat)
    requires RequestsApart(s) && u in s.resets
    ensures NoRequest(s, u)
  {
  }

  /** No request object leads to two passwords. */
  lemma OneWritePerRequest(cfg: Config, run: Run, i: nat, j: nat)
    requires IsRun(cfg, run) && i < j < |run.steps|
    requires Writes(cfg, run.states[i], run.steps[i]) && Writes(cfg, run.states[j], run.steps[j])
    ensures run.steps[i].uid != run.steps[j].uid
  {
    var u := run.steps[i].uid;
    EveryStateKeepsInv(cfg, run, i);
    ResetIsNoRequest(run.states[i], u);
    GoneStays(cfg, run.states[i], run.steps[i], u);
    assert run.states[i + 1] == Next(cfg, run.states[i], run.steps[i]);
    hide NoRequest, Next, Enabled, Inv;
    GoneForGood(cfg, run, i + 1, j, u);
  }

  /** The step uses up the request with the UID, which has the code that is presented with a password. */
  ghost predicate Consumes(s: State, step: Step, t: State, u: nat) {
    && step.DoConsumeReset? && u in Uids(s) && u !in s.resets && u in t.resets
    && t.resets[u].password == step.password
    && t.resets[u].request.code == step.code
  }

  lemma OnlyConsumingResets(cfg: Config, s: State, step: Step, u: nat)
    requires u !in s.resets && u in Next(cfg, s, step).resets
    ensures Consumes(s, step, Next(cfg, s, step), u)
  {
    hide ReconcileUser, CreateUser, PatchUser, Verify, RequestReset, ConsumeReset, FinishReset, Invite,
         UpdateInvitation, ExpireInvitation, Accept, Decline, FoundOrganization, Uids;
    match step
    case DoReconcile(name, draw, reread) => ReconcileTouches(cfg, s, name, draw, reread);
    case DoConsumeReset(code, password) => ConsumeMoves(s, code, password, u);
    case _ =>
  }

  lemma ConsumeMoves(s: State, code: string, password: string, u: nat)
    requires u !in s.resets && u in ConsumeReset(s, code, password).resets
    ensures u in Uids(s)
    ensures var reset := ConsumeReset(s, code, password).resets[u];
      reset.password == password && reset.request.code == code
  {
    var name := TheOnly(RequestsWithCode(s, code)).value;
    assert name in RequestsWithCode(s, code);
  }

  lemma {:induction false} ResetWasConsumed(cfg: Config, run: Run, i: nat, u: nat)
    requires IsRun(cfg, run) && i < |run.states| && u in run.states[i].resets
    ensures exists j :: 0 <= j < i && Consumes(run.states[j], run.steps[j], run.states[j + 1], u)
    decreases i
  {
    hide Next, Enabled, Consumes;
    if i > 0 {
      var j := i - 1;
      assert run.states[j + 1] == Next(cfg, run.states[j], run.steps[j]);
      if u in run.states[j].resets {
        ResetWasConsumed(cfg, run, j, u);
      } else {
        OnlyConsumingResets(cfg, run.states[j], run.steps[j], u);
      }
    }
  }

  /** A password is written after its request has been removed, and that request never comes back. */
  lemma WritesFollowRemoval(cfg: Config, run: Run, i: nat)
    requires IsRun(cfg, run) && i < |run.steps| && Writes(cfg, run.states[i], run.steps[i])
    ensures exists j :: 0 <= j < i && RemovedAt(run, j, run.steps[i].uid)
  {
    var u := run.steps[i].uid;
    ResetWasConsumed(cfg, run, i, u);
    var j :| 0 <= j < i && Consumes(run.states[j], run.steps[j], run.states[j + 1], u);
    EveryStateKeepsInv(cfg, run, j + 1);
    ResetIsNoRequest(run.states[j + 1], u);
    forall k | j < k < |run.states| ensures u !in Uids(run.states[k]) {
      GoneForGood(cfg, run, j + 1, k, u);
    }
    assert RemovedAt(run, j, u);
  }

  ghost predicate RemovedAt(run: Run, j: nat, u: nat) {
    && j < |run.states|
    && u in Uids(run.states[j])
    && forall k :: j < k < |run.states| ==> u !in Uids(run.states[k])
  }

  // ---------- requests that are late ----------

  /** A reset keeps its request and password until it is over. */
  lemma ResetStays(cfg: Config, s: State, step: Step, u: nat)
    requires RequestsApart(s) && u in s.resets && u in Next(cfg, s, step).resets
    ensures Next(cfg, s, step).resets[u] == s.resets[u]
  {
    hide ReconcileUser, CreateUser, PatchUser, Verify, RequestReset, ConsumeReset, FinishReset, Invite,
         UpdateInvitation, ExpireInvitation, Accept, Decline, FoundOrganization, ChangeRole, RequestsApart;
    match step
    case DoReconcile(name, draw, reread) => ReconcileTouches(cfg, s, name, draw, reread);
    case DoConsumeReset(code, password) => ConsumeKeepsResets(s, code, password);
    case _ =>
  }

  lemma ConsumeKeepsResets(s: State, code: string, password: string)
    requires RequestsApart(s)
    ensures forall u :: u in s.resets ==> u in ConsumeReset(s, code, password).resets
    ensures forall u :: u in s.resets ==> ConsumeReset(s, code, password).resets[u] == s.resets[u]
  {
    match TheOnly(RequestsWithCode(s, code))
    case None =>
    case Some(name) => assert name in RequestsWithCode(s, code);
  }

  /** A reset that is under way at some time was so, with the same request, ever since its request was used
      up, and that request was then as late as it was. */
  lemma {:induction false} ResetSince(cfg: Config, run: Run, i: nat, j: nat, u: nat)
    requires IsRun(cfg, run) && i <= j < |run.states|
    requires u in run.states[i].resets && u in run.states[j].resets
    ensures run.states[j].resets[u] == run.states[i].resets[u] && run.states[i].now <= run.states[j].now
    decreases j
  {
    hide Next, Enabled, NoRequest, RequestsApart;
    if i < j {
      StepOfRun(cfg, run, j - 1);
      RequestsOfRun(cfg, run, i);
      RequestsOfRun(cfg, run, j - 1);
      ResetIsNoRequest(run.states[i], u);
      GoneForGood(cfg, run, i, j - 1, u);
      if u !in run.states[j - 1].resets {
        GoneStays(cfg, run.states[j - 1], run.steps[j - 1], u);
      } else {
        ResetSince(cfg, run, i, j - 1, u);
        ResetStays(cfg, run.states[j - 1], run.steps[j - 1], u);
        TimeGoesOn(cfg, run.states[j - 1], run.steps[j - 1]);
      }
    }
  }

  lemma LateStaysLate(s: State, t: State, r: Request)
    requires !InTime(s, r) && s.now <= t.now
    ensures !InTime(t, r)
  {
  }

  /** In every run: a request that was used up too late leads to no password, then or ever. */
  lemma LateResetsNeverWrite(cfg: Config, run: Run, i: nat, j: nat, u: nat)
    requires IsRun(cfg, run) && i < j < |run.steps|
    requires Consumes(run.states[i], run.steps[i], run.states[i + 1], u)
    requires !InTime(run.states[i + 1], run.states[i + 1].resets[u].request)
    ensures !(Writes(cfg, run.states[j], run.steps[j]) && run.steps[j].uid == u)
  {
    hide Next, Enabled, InTime, ResetWrites;
    if Writes(cfg, run.states[j], run.steps[j]) && run.steps[j].uid == u {
      WritesNeedReset(cfg, run.states[j], u);
      ResetSince(cfg, run, i + 1, j, u);
      LateStaysLate(run.states[i + 1], run.states[j], run.states[j].resets[u].request);
    }
  }

  lemma WritesNeedReset(cfg: Config, s: State, u: nat)
    requires ResetWrites(cfg, s, u)
    ensures u in s.resets && InTime(s, s.resets[u].request) && s.resets[u].request.userRef in s.users
  {
  }

  lemma WritesOnePassword(cfg: Config, s: State, u: nat)
    requires ResetWrites(cfg, s, u)
    ensures var name := s.resets[u].request.userRef;
      FinishReset(cfg, s, u).users == s.users[name := s.users[name].(password := s.resets[u].password)]
  {
    hide UserAdmitted, InTime;
  }

  lemma NextFinishes(cfg: Config, s: State, u: nat)
    ensures Next(cfg, s, DoFinishReset(u)) == FinishReset(cfg, s, u)
  {
  }

  /** In every run: a reset that writes a password writes one, that of the very user, by UID, that its request
      was made for, who has been there since the request was used up. It is the password that was presented
      with the code of the request then, and the request was in time both then and now. */
  lemma WritesForTheOwner(cfg: Config, run: Run, j: nat)
    requires IsRun(cfg, run) && j < |run.steps| && Writes(cfg, run.states[j], run.steps[j])
    ensures var s, u := run.states[j], run.steps[j].uid;
      && u in s.resets
      && IsOwned(s, s.resets[u].request)
      && InTime(s, s.resets[u].request)
      && (var name := s.resets[u].request.userRef;
          run.states[j + 1].users == s.users[name := s.users[name].(password := s.resets[u].password)])
      && exists i :: 0 <= i < j && Consumes(run.states[i], run.steps[i], run.states[i + 1], u)
                     && run.states[i + 1].resets[u] == s.resets[u]
                     && IsOwned(run.states[i + 1], s.resets[u].request)
                     && InTime(run.states[i + 1], s.resets[u].request)
  {
    hide Next, Enabled, ResetWrites, InTime, IsOwned, UsersApart, SignUpsOk, RequestsApart, InvitationsApart;
    var s, u := run.states[j], run.steps[j].uid;
    WritesNeedReset(cfg, s, u);
    WritesOnePassword(cfg, s, u);
    StepOfRun(cfg, run, j);
    assert Next(cfg, s, run.steps[j]) == FinishReset(cfg, s, u) by { NextFinishes(cfg, s, u); }
    EveryStateKeepsInv(cfg, run, j);
    ResetWasConsumed(cfg, run, j, u);
    var i :| 0 <= i < j && Consumes(run.states[i], run.steps[i], run.states[i + 1], u);
    ResetSince(cfg, run, i + 1, j, u);
    EveryStateKeepsInv(cfg, run, i + 1);
    if !InTime(run.states[i + 1], s.resets[u].request) {
      LateStaysLate(run.states[i + 1], s, s.resets[u].request);
    }
  }

  // ---------- which request is used up ----------

  /** The code of a sign-up request resets a password as well: the request goes, and, in so far as the user is
      still admitted, the password of its user is written if and only if it is at most half an hour old. The
      ten minutes of a password reset do not apply. `later` is the time that the handler takes in between. */
  lemma SignUpCodeResetsPassword(cfg: Config, s: State, n: string, code: string, password: string, later: nat)
    requires Inv(s) && RequestsWithCode(s, code) == {SignUp(n)}
    ensures var r := s.requests[SignUp(n)];
      var consumed := ConsumeReset(s, code, password);
      var late := consumed.(now := consumed.now + later);
      var t := FinishReset(cfg, late, r.uid);
      && n in s.users
      && t.requests == s.requests - {SignUp(n)}
      && (ResetWrites(cfg, late, r.uid) <==>
            && s.now + later <= r.created + 1800
            && UserAdmitted(cfg, s, s.users[n].(password := password)))
      && t.users == if ResetWrites(cfg, late, r.uid) then s.users[n := s.users[n].(password := password)] else s.users
  {
    assert SignUp(n) in RequestsWithCode(s, code);
    assert SignUpOk(s, n);
    assert SIGN_UP_SECONDS == 1800;
    var consumed := ConsumeReset(s, code, password);
    var late := consumed.(now := consumed.now + later);
    var user := s.users[n].(password := password);
    assert UserAdmitted(cfg, late, user) <==> UserAdmitted(cfg, s, user) by {
      assert UsersWithEmail(late, user.email) == UsersWithEmail(s, user.email);
      hide DomainAllowed;
    }
    hide Inv, SignUp, SignUpBody, UserAdmitted, RequestsWithCode;
  }

  /** ResetPassword with the code of a request; `later` is the time that the handler takes in between. */
  function ResetBy(cfg: Config, s: State, name: string, code: string, password: string, later: nat): State
    requires name in s.requests
  {
    var consumed := ConsumeReset(s, code, password);
    FinishReset(cfg, consumed.(now := consumed.now + later), s.requests[name].uid)
  }

  /** The request is gone, and the password is written if and only if the request was young enough. */
  ghost predicate ResetsWithin(cfg: Config, s: State, name: string, code: string, password: string, later: nat,
                               n: string, seconds: nat)
    requires name in s.requests
  {
    var t, r := ResetBy(cfg, s, name, code, password, later), s.requests[name];
    && n in s.users
    && r.owner == Owner(n, s.users[n].uid)
    && t.requests == s.requests - {name}
    && t.users ==
         if s.now + later <= r.created + seconds then s.users[n := s.users[n].(password := password)] else s.users
  }

  lemma UsersAndRequestsOfRun(cfg: Config, run: Run)
    requires IsRun(cfg, run)
    ensures Inv(run.Last()) && UsersOk(cfg, run.Last())
  {
    RunKeepsInv(cfg, run);
    RunKeepsUsersOk(cfg, run);
    hide IsRun, UsersOk, Inv;
  }

  lemma SignUpResetsWithin(cfg: Config, s: State, n: string, code: string, password: string, later: nat)
    requires Inv(s) && UsersOk(cfg, s) && RequestsWithCode(s, code) == {SignUp(n)}
    ensures SignUp(n) in s.requests && ResetsWithin(cfg, s, SignUp(n), code, password, later, n, 1800)
  {
    assert SignUp(n) in RequestsWithCode(s, code);
    assert SignUpOk(s, n);
    SignUpCodeResetsPassword(cfg, s, n, code, password, later);
    UsersAreAdmitted(cfg, s, n, password);
    hide Inv, UsersOk, UserAdmitted, SignUp, SignUpBody, RequestsWithCode, ConsumeReset, FinishReset, ResetWrites;
  }

  /** In every reachable state every user is admitted, so half an hour is the only limit. */
  lemma SignUpCodesAreResetCodes(cfg: Config, run: Run, n: string, code: string, password: string, later: nat)
    requires IsRun(cfg, run) && RequestsWithCode(run.Last(), code) == {SignUp(n)}
    ensures SignUp(n) in run.Last().requests
    ensures ResetsWithin(cfg, run.Last(), SignUp(n), code, password, later, n, 1800)
  {
    hide Next, Enabled, Inv, UsersOk, SignUp, RequestsWithCode, ResetsWithin;
    UsersAndRequestsOfRun(cfg, run);
    SignUpResetsWithin(cfg, run.Last(), n, code, password, later);
  }

  lemma ResetResetsWithin(cfg: Config, s: State, name: string, code: string, password: string, later: nat)
    requires Inv(s) && UsersOk(cfg, s) && RequestsWithCode(s, code) == {name} && !IsSignUp(name)
    ensures name in s.requests && ResetsWithin(cfg, s, name, code, password, later, s.requests[name].userRef, 600)
  {
    assert RESET_SECONDS == 600;
    assert name in RequestsWithCode(s, code);
    var r := s.requests[name];
    var n := r.userRef;
    assert IsOwned(s, r) && IsResetRequest(r);
    UsersAreAdmitted(cfg, s, n, password);
    var consumed := ConsumeReset(s, code, password);
    var late, user := consumed.(now := consumed.now + later), s.users[n].(password := password);
    assert UserAdmitted(cfg, late, user) by {
      assert UsersWithEmail(late, user.email) == UsersWithEmail(s, user.email);
      hide DomainAllowed;
    }
    hide Inv, UsersOk, UserAdmitted, RequestsWithCode, IsSignUp, IsPasswordReset, ResetBody;
  }

  /** In every reachable state, a reset with the code of a password-reset request writes the password of the
      user it was made for if and only if it comes to it at most ten minutes after the request was created. */
  lemma ResetCodesReset(cfg: Config, run: Run, name: string, code: string, password: string, later: nat)
    requires IsRun(cfg, run) && RequestsWithCode(run.Last(), code) == {name} && !IsSignUp(name)
    ensures name in run.Last().requests
    ensures ResetsWithin(cfg, run.Last(), name, code, password, later, run.Last().requests[name].userRef, 600)
  {
    hide Next, Enabled, Inv, UsersOk, IsSignUp, RequestsWithCode, ResetsWithin;
    UsersAndRequestsOfRun(cfg, run);
    ResetResetsWithin(cfg, run.Last(), name, code, password, later);
  }

  /** In every reachable state: the request that a reset uses up is a password-reset request, good for ten
      minutes, if and only if the one request with the code is not some user's sign-up request. */
  lemma UsesUpPasswordResetIff(cfg: Config, run: Run, code: string, name: string)
    requires IsRun(cfg, run) && RequestsWithCode(run.Last(), code) == {name}
    ensures name in run.Last().requests
    ensures IsPasswordReset(name) && IsResetRequest(run.Last().requests[name]) <==> forall n :: name != SignUp(n)
  {
    var s := run.Last();
    assert name in RequestsWithCode(s, code);
    RunKeepsInv(cfg, run);
    if IsPasswordReset(name) {
      var suffix :| name == PasswordReset(suffix);
      forall n ensures name != SignUp(n) {
        SignUpIsNotReset(n, suffix);
      }
    }
    assert IsSignUp(name) <==> exists n :: name == SignUp(n);
    hide SignUp, PasswordReset, IsResetRequest, IsPasswordReset, UsersApart, SignUpsOk, RequestsApart, InvitationsApart;
  }
}
