/** Invitations: who can be invited, what acceptance exchanges, and where the role of a member comes from. */
module IdentityInvitations {
  import opened Wrappers
  import opened Identity
  import opened IdentityInvariants
  import opened IdentityRuns
  import IdentityResets

  // ---------- inviting ----------

  /** The webhook looks at the first of the users with the address only. There is at most one, so the order
      of the list says nothing. */
  lemma OrderOfUsersSaysNothing(cfg: Config, s: State, namespace: string, email: string, users: seq<string>,
                                users': seq<string>)
    requires UsersApart(s) && Lists(users, UsersWithEmail(s, email)) && Lists(users', UsersWithEmail(s, email))
    ensures InvitationAdmitted(cfg, s, namespace, email, users)
      <==> InvitationAdmitted(cfg, s, namespace, email, users')
    ensures forall n :: n in s.users && s.users[n].email == email ==> users == [n]
  {
    hide ListedAsMember, InvitationsFor;
    AloneInList(s, email, users);
    AloneInList(s, email, users');
  }

  lemma TwoListed<T(!new)>(items: seq<T>, all: set<T>)
    requires Lists(items, all)
    ensures |items| > 1 ==> exists x, y :: x in all && y in all && x != y
    ensures items == [] || items[0] in all
  {
    if |items| > 1 {
      assert items[0] in all && items[1] in all && items[0] != items[1];
    }
  }

  lemma AloneInList(s: State, email: string, users: seq<string>)
    requires UsersApart(s) && Lists(users, UsersWithEmail(s, email))
    ensures users == [] || (users == [users[0]] && users[0] in UsersWithEmail(s, email))
    ensures forall n :: n in s.users && s.users[n].email == email ==> users == [n]
  {
    TwoListed(users, UsersWithEmail(s, email));
    forall n | n in s.users && s.users[n].email == email ensures users == [n] {
      assert n in UsersWithEmail(s, email);
      assert n in users;
    }
  }

  // ---------- accepting ----------

  /** What acceptance needs: an invitation for the subject's address, and no member yet. */
  ghost predicate Acceptable(s: State, subject: string, organization: string, key: Name) {
    && subject in s.users && subject != ""
    && key in s.invitations
    && NamespaceOf(s.organizations, organization) == Some(key.namespace)
    && s.invitations[key].email == s.users[subject].email
    && Name(key.namespace, subject) !in s.members
  }

  /** Acceptance succeeds if and only if there is an invitation for it. It then takes exactly that one away
      and adds exactly one member, with the role of the invitation. Otherwise it changes nothing. */
  lemma AcceptExchanges(s: State, subject: string, organization: string, key: Name)
    requires InvitationsApart(s)
    ensures var t := Accept(s, subject, organization);
      && (Acceptable(s, subject, organization, key) ==>
            && t.invitations == s.invitations - {key}
            && t.members == s.members[Name(key.namespace, subject) :=
                                      Member(s.nextUid, s.invitations[key].role, subject)]
            && |t.invitations| == |s.invitations| - 1
            && |t.members| == |s.members| + 1)
      && (t == s <==> !exists k :: Acceptable(s, subject, organization, k))
  {
    var t := Accept(s, subject, organization);
    if Acceptable(s, subject, organization, key) {
      OneInvitation(s, subject, organization, key);
      IdentityResets.RemoveOne(s.invitations, key);
      IdentityResets.AddOne(s.members, Name(key.namespace, subject), t.members[Name(key.namespace, subject)]);
    }
    if k :| Acceptable(s, subject, organization, k) {
      OneInvitation(s, subject, organization, k);
      assert k !in t.invitations;
    } else if t != s {
      OneAcceptable(s, subject, organization);
      assert false;
    }
  }

  lemma OneInvitation(s: State, subject: string, organization: string, key: Name)
    requires InvitationsApart(s) && Acceptable(s, subject, organization, key)
    ensures InvitationOf(s, subject, organization) == Some(key)
  {
    var keys := InvitationsFor(s, key.namespace, s.users[subject].email);
    assert key in keys;
    assert keys == {key};
  }

  lemma OneAcceptable(s: State, subject: string, organization: string)
    requires Accept(s, subject, organization) != s
    ensures InvitationOf(s, subject, organization).Some?
    ensures Acceptable(s, subject, organization, InvitationOf(s, subject, organization).value)
  {
    var key := InvitationOf(s, subject, organization).value;
    assert key in InvitationsFor(s, NamespaceOf(s.organizations, organization).value, s.users[subject].email);
  }

  // ---------- expiry ----------

  ghost predicate Expired(s: State, key: Name) {
    key in s.invitations && HasExpired(s, s.invitations[key])
  }

  /** An invitation that has expired is accepted like any other, as long as it has not been reconciled
      away. */
  lemma ExpiredIsAccepted(s: State, subject: string, organization: string, key: Name)
    requires InvitationsApart(s) && Acceptable(s, subject, organization, key) && Expired(s, key)
    ensures var t := Accept(s, subject, organization);
      && key !in t.invitations
      && t.members == s.members[Name(key.namespace, subject) := Member(s.nextUid, s.invitations[key].role, subject)]
  {
    hide Accept;
    AcceptExchanges(s, subject, organization, key);
  }

  /** So acceptance turns a late subject away if and only if there is none: the invitation that it could
      accept has no duration, or is not past it. */
  lemma ExpiryIsRespectedIff(s: State, subject: string, organization: string, key: Name)
    requires InvitationsApart(s) && Acceptable(s, subject, organization, key)
    ensures var i := s.invitations[key];
      (Expired(s, key) ==> Accept(s, subject, organization) == s) <==>
        (i.duration == None || s.now <= i.created + i.duration.value)
  {
    hide Accept, Acceptable;
    AcceptExchanges(s, subject, organization, key);
  }

  // ---------- where invitations come from ----------

  /** The step makes this invitation. */
  ghost predicate Makes(cfg: Config, s: State, step: Step, key: Name, invitation: Invitation) {
    && step.DoInvite?
    && NamespaceOf(s.organizations, step.organization) == Some(key.namespace)
    && invitation == Invitation(s.nextUid, s.now, step.email, step.role, step.duration)
  }

  lemma InvitesMake(cfg: Config, s: State, step: Step, key: Name)
    requires step.DoInvite? && key in Next(cfg, s, step).invitations
    ensures var i := Next(cfg, s, step).invitations[key];
      if key in s.invitations then i == s.invitations[key] else Makes(cfg, s, step, key, i)
  {
    hide InvitationAdmitted;
  }

  /** Invitations are made by an invite step and never changed. */
  lemma InvitationsNeverChange(cfg: Config, s: State, step: Step, key: Name)
    requires key in Next(cfg, s, step).invitations
    ensures var i := Next(cfg, s, step).invitations[key];
      if key in s.invitations then i == s.invitations[key] else Makes(cfg, s, step, key, i)
  {
    if step.DoInvite? {
      InvitesMake(cfg, s, step, key);
    } else if step.DoUpdateInvitation? {
      UpdateChangesNothing(cfg, s, step.key, step.invitation, step.users);
    } else {
      OnlyInvitesAdd(cfg, s, step);
      hide Next;
    }
    hide Makes, UpdateInvitation, Invite;
  }

  /** Every invitation has been made by an earlier step and has been there, as made, ever since. */
  ghost predicate MadeAt(cfg: Config, run: Run, j: nat, i: nat, key: Name, invitation: Invitation)
    requires j < i < |run.states| && i <= |run.steps|
  {
    && Makes(cfg, run.states[j], run.steps[j], key, invitation)
    && forall k :: j < k <= i ==> key in run.states[k].invitations && run.states[k].invitations[key] == invitation
  }

  lemma {:induction false} InvitationWasMade(cfg: Config, run: Run, i: nat, key: Name)
    requires IsRun(cfg, run) && i < |run.states| && key in run.states[i].invitations
    ensures exists j :: 0 <= j < i && MadeAt(cfg, run, j, i, key, run.states[i].invitations[key])
    decreases i
  {
    hide Next, Enabled, Makes;
    if i > 0 {
      assert run.states[(i - 1) + 1] == Next(cfg, run.states[i - 1], run.steps[i - 1]);
      InvitationsNeverChange(cfg, run.states[i - 1], run.steps[i - 1], key);
      if key in run.states[i - 1].invitations {
        InvitationWasMade(cfg, run, i - 1, key);
        var j :| 0 <= j < i - 1 && MadeAt(cfg, run, j, i - 1, key, run.states[i].invitations[key]);
        assert MadeAt(cfg, run, j, i, key, run.states[i].invitations[key]);
      } else {
        assert MadeAt(cfg, run, i - 1, i, key, run.states[i].invitations[key]);
      }
    }
  }

  /** In every run, an acceptance that succeeds adds a member with the role that an earlier step gave to an
      invitation for the member's address in the organization's namespace; and that invitation goes. */
  lemma AcceptedRoleWasGiven(cfg: Config, run: Run, i: nat)
    requires IsRun(cfg, run) && i < |run.steps| && run.steps[i].DoAccept? && run.states[i + 1] != run.states[i]
    ensures var s, t, subject := run.states[i], run.states[i + 1], run.steps[i].subject;
      && subject in s.users
      && exists j, key ::
        && 0 <= j < i
        && key in s.invitations
        && MadeAt(cfg, run, j, i, key, s.invitations[key])
        && run.steps[j].email == s.users[subject].email
        && NamespaceOf(s.organizations, run.steps[i].organization) == Some(key.namespace)
        && t.invitations == s.invitations - {key}
        && t.members == s.members[Name(key.namespace, subject) := Member(s.nextUid, run.steps[j].role, subject)]
  {
    var s, subject, organization := run.states[i], run.steps[i].subject, run.steps[i].organization;
    assert run.states[i + 1] == Next(cfg, s, run.steps[i]);
    EveryStateKeepsInv(cfg, run, i);
    OneAcceptable(s, subject, organization);
    var key := InvitationOf(s, subject, organization).value;
    AcceptExchanges(s, subject, organization, key);
    hide Next, Enabled, Accept, InvitationOf, Inv;
    InvitationWasMade(cfg, run, i, key);
    var j :| 0 <= j < i && MadeAt(cfg, run, j, i, key, s.invitations[key]);
    assert Makes(cfg, run.states[j], run.steps[j], key, s.invitations[key]);
  }

  // ---------- expiry over runs ----------

  lemma ExpiryDeletes(s: State, key: Name)
    requires Expired(s, key)
    ensures key !in ExpireInvitation(s, key).invitations
  {
  }

  /** An expired invitation stays expired as long as it is there. */
  lemma ExpiredStays(cfg: Config, s: State, step: Step, key: Name)
    requires Expired(s, key) && key in Next(cfg, s, step).invitations
    ensures Expired(Next(cfg, s, step), key) && step != DoExpireInvitation(key)
  {
    InvitationsNeverChange(cfg, s, step, key);
    TimeGoesOn(cfg, s, step);
    ExpiryDeletes(s, key);
    assert Next(cfg, s, DoExpireInvitation(key)) == ExpireInvitation(s, key);
    hide Next, ExpireInvitation;
  }

  /** The invitation has been there since it expired, and nothing has reconciled it. */
  ghost predicate LeftOver(run: Run, e: nat, i: nat, key: Name)
    requires e <= i < |run.states| && i <= |run.steps|
  {
    && Expired(run.states[e], key)
    && (forall k :: e <= k <= i ==> key in run.states[k].invitations)
    && (forall k :: e <= k < i ==> run.steps[k] != DoExpireInvitation(key))
  }

  lemma {:induction false} LeftOverIsExpired(cfg: Config, run: Run, e: nat, i: nat, key: Name)
    requires IsRun(cfg, run) && e <= i < |run.states| && Expired(run.states[e], key)
    requires forall k :: e <= k <= i ==> key in run.states[k].invitations
    ensures Expired(run.states[i], key) && LeftOver(run, e, i, key)
    decreases i
  {
    hide Next, Enabled, Expired;
    if e < i {
      LeftOverIsExpired(cfg, run, e, i - 1, key);
      StepOfRun(cfg, run, i - 1);
      ExpiredStays(cfg, run.states[i - 1], run.steps[i - 1], key);
    }
  }

  /** The step accepts this invitation. */
  ghost predicate Accepts(s: State, step: Step, key: Name) {
    step.DoAccept? && Acceptable(s, step.subject, step.organization, key)
  }

  /** No invitation has been accepted after it had expired. */
  ghost predicate AcceptedInTime(run: Run) {
    forall i, key :: 0 <= i < |run.steps| && i < |run.states| && Accepts(run.states[i], run.steps[i], key) ==>
      key !in run.states[i].invitations || !HasExpired(run.states[i], run.states[i].invitations[key])
  }

  /** Every acceptance of an invitation removes it, in time or not; and a run accepts in time if and only if
      no acceptance falls between the expiry of an invitation and the reconciliation that deletes it. */
  lemma AcceptedInTimeIff(cfg: Config, run: Run)
    requires IsRun(cfg, run)
    ensures AcceptedInTime(run) <==>
      !exists e, i, key :: 0 <= e <= i < |run.steps| && LeftOver(run, e, i, key)
        && Accepts(run.states[i], run.steps[i], key)
  {
    hide Next, Enabled, Accepts;
    if e, i, key :| 0 <= e <= i < |run.steps| && LeftOver(run, e, i, key) && Accepts(run.states[i], run.steps[i], key) {
      LeftOverIsExpired(cfg, run, e, i, key);
      assert !AcceptedInTime(run);
    }
    if !AcceptedInTime(run) {
      var i, key :| && 0 <= i < |run.steps| && Accepts(run.states[i], run.steps[i], key)
                    && key in run.states[i].invitations && HasExpired(run.states[i], run.states[i].invitations[key]);
      assert LeftOver(run, i, i, key);
    }
  }

  // ---------- conservation ----------

  /** The kinds of steps that make, accept or otherwise take away an invitation, and that add a first member
      or remove one. */
  ghost predicate MakesOne(s: State, step: Step, t: State) {
    step.DoInvite? && t != s
  }

  ghost predicate AcceptsOne(s: State, step: Step, t: State) {
    step.DoAccept? && t != s
  }

  ghost predicate DiscardsOne(s: State, step: Step, t: State) {
    (step.DoDeleteInvitation? || step.DoExpireInvitation? || step.DoDecline?) && t != s
  }

  ghost predicate FoundsOne(s: State, step: Step, t: State) {
    step.DoFoundOrganization? && t.members != s.members
  }

  ghost predicate RemovesOne(s: State, step: Step, t: State) {
    step.DoRemoveMember? && t != s
  }

  function One(b: bool): nat {
    if b then 1 else 0
  }

  ghost predicate Balanced(s: State, step: Step, t: State) {
    && |t.invitations| + One(AcceptsOne(s, step, t)) + One(DiscardsOne(s, step, t))
       == |s.invitations| + One(MakesOne(s, step, t))
    && |t.members| + One(RemovesOne(s, step, t))
       == |s.members| + One(AcceptsOne(s, step, t)) + One(FoundsOne(s, step, t))
  }

  lemma OthersBalance(s: State, step: Step, t: State)
    requires t.members == s.members && t.invitations == s.invitations
    requires !step.DoInvite? && !step.DoAccept? && !step.DoRemoveMember?
    requires !step.DoDeleteInvitation? && !step.DoExpireInvitation? && !step.DoDecline?
    ensures Balanced(s, step, t)
  {
  }

  lemma NothingBalances(s: State, step: Step)
    ensures Balanced(s, step, s)
  {
  }

  lemma DiscardBalances(s: State, step: Step, key: Name)
    requires step.DoDeleteInvitation? || step.DoExpireInvitation? || step.DoDecline?
    ensures Balanced(s, step, Uninvite(s, key))
  {
    IdentityResets.RemoveOne(s.invitations, key);
    if key !in s.invitations {
      assert s.invitations - {key} == s.invitations;
    } else {
      assert key !in Uninvite(s, key).invitations;
    }
  }

  lemma ExpireBalances(s: State, step: Step, key: Name)
    requires step.DoExpireInvitation?
    ensures Balanced(s, step, ExpireInvitation(s, key))
  {
    hide Balanced, Uninvite;
    NothingBalances(s, step);
    DiscardBalances(s, step, key);
  }

  lemma ReconcileBalances(cfg: Config, s: State, step: Step)
    requires step.DoReconcile?
    ensures Balanced(s, step, Next(cfg, s, step))
  {
    hide Balanced, ReconcileUser;
    ReconcileTouches(cfg, s, step.name, step.draw, step.reread);
    OthersBalance(s, step, Next(cfg, s, step));
  }

  lemma RemovalBalances(s: State, step: Step, key: Name)
    requires step.DoRemoveMember?
    ensures Balanced(s, step, RemoveMember(s, key))
  {
    IdentityResets.RemoveOne(s.members, key);
    if key !in s.members {
      assert s.members - {key} == s.members;
    } else {
      assert key !in RemoveMember(s, key).members;
    }
  }

  lemma RoleChangeBalances(s: State, step: Step, key: Name, role: MemberRole)
    requires step.DoChangeRole?
    ensures Balanced(s, step, ChangeRole(s, key, role))
  {
    if key in s.members {
      IdentityResets.AddOne(s.members, key, s.members[key].(role := role));
    }
  }

  lemma FoundingBalances(s: State, step: Step, subject: string, suffix: string)
    requires step.DoFoundOrganization?
    ensures Balanced(s, step, FoundOrganization(s, subject, suffix))
  {
    var t, key := FoundOrganization(s, subject, suffix), Name(OrganizationName(suffix), subject);
    hide OrganizationName;
    if t.members != s.members {
      IdentityResets.AddOne(s.members, key, t.members[key]);
    }
  }

  lemma InviteBalances(cfg: Config, s: State, step: Step)
    requires step.DoInvite?
    ensures Balanced(s, step, Next(cfg, s, step))
  {
    hide InvitationAdmitted;
    var t := Next(cfg, s, step);
    if t != s {
      var key := Name(NamespaceOf(s.organizations, step.organization).value, "pending-" + step.suffix);
      IdentityResets.AddOne(s.invitations, key, t.invitations[key]);
    }
  }

  lemma AcceptBalances(s: State, step: Step, subject: string, organization: string)
    requires InvitationsApart(s) && step.DoAccept?
    ensures Balanced(s, step, Accept(s, subject, organization))
  {
    hide InvitationOf, Accept, InvitationsApart;
    if Accept(s, subject, organization) != s {
      OneAcceptable(s, subject, organization);
      AcceptExchanges(s, subject, organization, InvitationOf(s, subject, organization).value);
    }
  }

  lemma DeclineBalances(s: State, step: Step, subject: string, organization: string)
    requires step.DoDecline?
    ensures Balanced(s, step, Decline(s, subject, organization))
  {
    hide Balanced, InvitationOf, Uninvite;
    NothingBalances(s, step);
    if InvitationOf(s, subject, organization).Some? {
      DiscardBalances(s, step, InvitationOf(s, subject, organization).value);
    }
  }

  lemma StepBalances(cfg: Config, s: State, step: Step)
    requires InvitationsApart(s)
    ensures Balanced(s, step, Next(cfg, s, step))
  {
    hide ReconcileUser, CreateUser, PatchUser, Verify, RequestReset, ConsumeReset, FinishReset, Invite,
         UpdateInvitation, Accept, Decline, FoundOrganization, ChangeRole, RemoveMember, Uninvite, ExpireInvitation,
         InvitationsApart, Balanced;
    match step
    case DoReconcile(name, draw, reread) => ReconcileBalances(cfg, s, step);
    case DoInvite(_, _, _, _, _, _) => InviteBalances(cfg, s, step);
    case DoUpdateInvitation(key, invitation, users) =>
      UpdateChangesNothing(cfg, s, key, invitation, users);
      NothingBalances(s, step);
    case DoDeleteInvitation(key) => DiscardBalances(s, step, key);
    case DoExpireInvitation(key) => ExpireBalances(s, step, key);
    case DoDecline(subject, organization) => DeclineBalances(s, step, subject, organization);
    case DoAccept(subject, organization) => AcceptBalances(s, step, subject, organization);
    case DoFoundOrganization(subject, suffix) => FoundingBalances(s, step, subject, suffix);
    case DoRemoveMember(key) => RemovalBalances(s, step, key);
    case DoChangeRole(key, role) => RoleChangeBalances(s, step, key, role);
    case _ => OthersBalance(s, step, Next(cfg, s, step));
  }

  lemma InvitationsOfRun(cfg: Config, run: Run, i: nat)
    requires IsRun(cfg, run) && i < |run.states|
    ensures InvitationsApart(run.states[i])
  {
    EveryStateKeepsInv(cfg, run, i);
  }

  lemma StartsWithoutMembers(cfg: Config, run: Run)
    requires IsRun(cfg, run)
    ensures run.states[0].invitations == map[] && run.states[0].members == map[]
  {
    hide Next, Enabled;
  }

  /** In every run, at any time, the books balance: every invitation made is still open, has been accepted or
      has been discarded; and the members are those that have accepted or founded an organization, less those
      that have been removed. */
  lemma {:induction false} InvitationsBalance(cfg: Config, run: Run, k: nat)
    requires IsRun(cfg, run) && k <= |run.steps|
    ensures Count(run, MakesOne, k) == Count(run, AcceptsOne, k) + Count(run, DiscardsOne, k)
      + |run.states[k].invitations|
    ensures |run.states[k].members| + Count(run, RemovesOne, k) == Count(run, AcceptsOne, k) + Count(run, FoundsOne, k)
  {
    hide Next, IsRun, MakesOne, AcceptsOne, DiscardsOne, FoundsOne, RemovesOne, InvitationsApart;
    if k > 0 {
      InvitationsBalance(cfg, run, k - 1);
      StepOfRun(cfg, run, k - 1);
      InvitationsOfRun(cfg, run, k - 1);
      StepBalances(cfg, run.states[k - 1], run.steps[k - 1]);
    } else {
      StartsWithoutMembers(cfg, run);
    }
  }

  /** In particular, acceptances and open invitations never exceed the invitations made. */
  lemma AcceptancesNeverExceedInvitations(cfg: Config, run: Run, k: nat)
    requires IsRun(cfg, run) && k <= |run.steps|
    ensures Count(run, AcceptsOne, k) + |run.states[k].invitations| <= Count(run, MakesOne, k)
  {
    hide Count;
    InvitationsBalance(cfg, run, k);
  }
}
