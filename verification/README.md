# Dockyards backend: verified models

Dafny models of the parts of the Dockyards backend that carry its hardest promises, each with proofs of
those promises. `dafny verify dfyconfig.toml` checks all of it.

- **Bubble Babble codes** (`BubbleBabble.dfy`). The encoder as a loop over an exactly sized buffer, the
  recursive definition it computes, the tuple-by-tuple form of the Internet-Draft draft-huima-01, a decoder
  that accepts exactly the encodings, and the number of codes that a given entropy can give.
- **Authorization** (`Rbac.dfy`, `Authorization.dfy`, `AuthorizationRuns.dfy`, `AuthorizationTable.dfy`,
  `AuthorizationClashes.dfy`, `AuthorizationHistories.dfy`). Organizations, members and users are compiled into roles and bindings by
  create-or-patch calls on a store. A small RBAC authorizer over that store is compared with a direct table
  of rights, for every order and repetition of reconciliations, and followed through changes of the
  organizations, members and users.
- **Identity** (`Identity*.dfy`). Users, verification requests, password resets, organizations, invitations
  and members as one state with seventeen kinds of steps. `Identity` gives each handler, webhook and reconciliation as a
  function on the state, `IdentityHandlers` gives the same as methods of a server that writes its fields in
  sequence, and the other modules prove what every step keeps, what it achieves, and what holds in every run.
- **Clusters** (`Semver.dfy`, `ClusterUpgrades.dfy`, `Prefixes.dfy`, `ClusterWebhook.dfy`). The upgrade
  window over version precedence, and the admission of pod and service subnets as sets of addresses.
- **Authentication configuration** (`AuthenticationTypes.dfy`, `AuthenticationConfig.dfy`,
  `AuthenticationHandlers.dfy`, `AuthenticationProperties.dfy`, `AuthenticationErrors.dfy`). The parser and printer pair with its shared
  list of field errors, the exact condition for each round trip, and exactly what the parser accepts.
- **Workload references** (`WorkloadReferences.dfy`). A list that is updated in place and stands for a map.

`Wrappers.dfy`, `Strings.dfy` and `Powers.dfy` hold what several of these share.

Code that works step by step is written as methods (and, where it updates an object, as a class) whose
postconditions name a specification function; the lemmas are about that function. Lists that the API server
returns in no particular order are arbitrary orders in the model; what the cache, the random source or a
library delivers is a parameter.

## Where the code differs from what one would expect

The models follow the code. Each of these is stated by a lemma that is named here.

- Objects of a user and of an organization can have one name: when an organization is called `user` and a
  user `reader`, `super-user`, `other` or the plural of one of them. Only then does the order of
  reconciliation matter, and only then can the rights differ from the table
  (`AuthorizationRuns.ConfluentIffNoCollision`, `AuthorizationRuns.CollisionsByName`,
  `AuthorizationClashes.AgreesIffNoCollision`).
- A member that loses a role keeps the bindings of the highest role it ever had
  (`AuthorizationTable.LastRoleCountsIffHeld`, `AuthorizationTable.LastRoleCountsIffHighest`).
- No update of a stored invitation is ever admitted, because the check for new invitations finds the
  invitation itself (`IdentityInvariants.UpdatesAreNeverAdmitted`).
- Accepting an invitation does not look at its expiry: an expired one is accepted as long as it has not been
  reconciled away (`IdentityInvitations.ExpiredIsAccepted`), so expiry is respected exactly by those
  acceptances that come in time, and by those runs in which none falls between the expiry of an invitation and
  its deletion (`IdentityInvitations.ExpiryIsRespectedIff`, `IdentityInvitations.AcceptedInTimeIff`).
- The code of a sign-up request resets a password: the request goes, and the password is written up to half an
  hour after its creation (`IdentityResets.SignUpCodesAreResetCodes`). A reset uses up a password-reset request
  exactly if the one request with its code is nobody's sign-up request
  (`IdentityResets.UsesUpPasswordResetIff`).
- Claim validation rules get their expression from the required value, so no rule with a claim or a required
  value is accepted (`AuthenticationProperties.RuleHasNoErrors`); extra mappings and, when printed, user
  validation rules lose their contents (`AuthenticationProperties.PrintedParsesBack`,
  `AuthenticationProperties.ParsedPrintsBack`).
- The upgrade window admits the first patch of the second next minor
  (`ClusterUpgrades.WindowInNumbers`).
- Whether the ready condition is read again after verification decides whether one or two reconciliations
  settle a user (`IdentityFixpoint.ReconcileRanks`, `IdentityFixpoint.TakenBeforeItTakesTwo`).

## Model

| member | source | states |
|---|---|---|
| BubbleBabble.EncodeInBuffer | pkg/util/bubblebabble/bubblebabble.go:40-94 | The closure-driven loop keeps every table index in bounds and fills its buffer to the last cell, each write going to the next free cell; the output is the recursive definition of the encoding, of length 3(n\|1)+2 |
| BubbleBabble.BodyLength | pkg/util/bubblebabble/bubblebabble.go:44-47 | For every input and seed the part between the two `x` has exactly the length the buffer is allocated with |
| BubbleBabble.TupleAt | pkg/util/bubblebabble/bubblebabble.go:65-91 | Each tuple stands at the place the draft gives it and depends only on its two bytes and on the draft's numbered checksum; the last triple holds the odd byte or the checksum |
| BubbleBabble.ClosingTriple | pkg/util/bubblebabble/bubblebabble.go:67-72 | An encoding of even length closes with the vowel of the checksum modulo six, an `x` and the vowel of the checksum divided by six; the empty input encodes to xexax |
| BubbleBabble.DecodeInvertsEncode | pkg/util/bubblebabble/bubblebabble.go:40-94 | A decoder that tracks the checksum returns a byte string for a text if and only if the text is its encoding, over all texts and byte strings |
| BubbleBabble.EncodeIsInjective | pkg/util/bubblebabble/bubblebabble.go:40-94 | Equal encodings come from equal byte strings, of any lengths |
| BubbleBabble.LengthsThatCollide | pkg/util/bubblebabble/bubblebabble.go:44-47 | Output lengths agree exactly for lengths 2k and 2k+1, so only the last triple tells these apart |
| BubbleBabble.RandomWithEntropyOfAtLeast | pkg/util/bubblebabble/bubblebabble.go:96-114 | Succeeds if and only if the source delivers the computed number of bytes without an error, and the code then decodes to those bytes |
| BubbleBabble.CodesAreStrongEnough | pkg/util/bubblebabble/bubblebabble.go:97-104 | The byte count is the least that covers the wanted bits, and exactly 2^(8 byteCount) >= 2^minimumBits different codes can come out |
| Semver.CompareIsPrecedence | internal/controller/cluster_controller.go:168-174 | The comparison by major, minor, patch and prerelease identifiers is the order of section 11 of SemVer 2.0.0, stated by first differing positions; it is antisymmetric, and equal exactly up to build metadata |
| Semver.CompareTransitive | internal/controller/cluster_controller.go:168-174 | The order is transitive, strictly if either step is: a total preorder |
| ClusterUpgrades.Cluster.ReconcileUpgrades | internal/controller/cluster_controller.go:101-186 | Which fields each early return changes or leaves alone and which condition, with its reason, it sets, and that the last one replaces the upgrades by the specified offer |
| ClusterUpgrades.OfferedIsSubsequence | internal/controller/cluster_controller.go:156-181 | The offer is the subsequence at strictly increasing positions of exactly those listed versions that parse, follow the current version in precedence and do not follow the second next minor |
| ClusterUpgrades.OfferedMember | internal/controller/cluster_controller.go:158-179 | A version is offered if and only if it is listed, parses, follows the current version in precedence and does not follow the second next minor |
| ClusterUpgrades.WindowIsPrecedence | internal/controller/cluster_controller.go:168-174 | The window is: strictly above the current version in precedence, not above the second next minor |
| ClusterUpgrades.WindowInNumbers | internal/controller/cluster_controller.go:140-174 | The window in numbers: same major, at most one minor ahead, or the first patch of the second next minor with the prereleases that the non-strict test lets in |
| ClusterUpgrades.UpgradesEnd | internal/controller/cluster_controller.go:158-181 | With a fixed release, every chain of offered upgrades climbs strictly in precedence and has no more steps than the list has versions of different precedence |
| Prefixes.OverlapsIffShareAddress | internal/webhooks/cluster_webhook.go:179-184 | Comparing at the shorter length decides whether two valid prefixes have a common address (section 3.1 of RFC 4632, section 2.3 of RFC 4291); the invalid prefix overlaps nothing |
| Prefixes.ShortestAndLongest | internal/webhooks/cluster_webhook.go:172-204 | The prefix without bits holds all 2^32 or 2^128 addresses of its family and none of the other, the longest one address |
| ClusterWebhook.CheckOwners | internal/webhooks/cluster_webhook.go:134-166 | The owner loop ends the validation exactly if an owner of kind Organization has a version that does not parse, or none is of the group dockyards.io |
| ClusterWebhook.CheckSubnets | internal/webhooks/cluster_webhook.go:172-187 | Both nested loops append exactly the specified errors, in order, and remember every entry, parsed or not |
| ClusterWebhook.Validate | internal/webhooks/cluster_webhook.go:133-217 | The verdict of the whole check, and its errors in order |
| ClusterWebhook.ErrorCount | internal/webhooks/cluster_webhook.go:168-204 | The number of errors is the number of unparsable entries plus the number of pairs of podSubnets ++ serviceSubnets that share an address |
| ClusterWebhook.ListErrorsAre | internal/webhooks/cluster_webhook.go:172-187 | An error is reported if and only if it names, under the field of its list, the index and value of an entry that does not parse, or that parses and shares an address with an earlier prefix, which it names |
| ClusterWebhook.SubnetErrorsAre | internal/webhooks/cluster_webhook.go:168-204 | The same for both lists, the second of which is compared with the first |
| ClusterWebhook.NoErrorsIffDisjoint | internal/webhooks/cluster_webhook.go:168-208 | No errors if and only if every subnet parses and no two of them share an address |
| ClusterWebhook.UnparsableNeverOverlaps | internal/webhooks/cluster_webhook.go:172-204 | Every overlap error is one of an entry that parses with an earlier entry that parses, of the same list or the one before, and names the prefix they share an address with |
| ClusterWebhook.Admit | internal/webhooks/cluster_webhook.go:82-84 | A cluster is admitted if and only if its owners are in order and its subnets parse and are disjoint |
| WorkloadReferences.ReferenceList.Find | api/apiutil/apiutil.go:281-291 | Finds the first entry with the key, or none if there is none |
| WorkloadReferences.ReferenceList.Set | api/apiutil/apiutil.go:293-312 | Updates the list in place to the specified one and returns whether it changed |
| WorkloadReferences.SetRefinesMap | api/apiutil/apiutil.go:293-312 | On the map from keys to URLs one call is an update of one key; the list changes if and only if the map does; distinct keys stay distinct and all other entries and the order stay |
| WorkloadReferences.FoldRefinesMap | api/apiutil/apiutil.go:293-312 | Any sequence of calls is the sequence of map updates, last write wins, and keeps keys distinct |
| WorkloadReferences.RepeatChangesNothing | api/apiutil/apiutil.go:293-312 | A second call with the same reference changes nothing |
| AuthenticationHandlers.ParseAuthenticationConfiguration | internal/api/v1/handlers/clusters.go:540-553 | The parser returns the specified value and appends exactly the specified errors, in order, to the shared list, or to none if there is no list |
| AuthenticationHandlers.ParseJWTAuthenticator | internal/api/v1/handlers/clusters.go:555-578 | The same for the loop that looks for repeated issuer URLs |
| AuthenticationHandlers.ParseIssuer | internal/api/v1/handlers/clusters.go:580-601 | The same for one issuer and its audiences |
| AuthenticationHandlers.ParseClaimValidationRules | internal/api/v1/handlers/clusters.go:603-650 | The same for claim validation rules, with the expression taken from the required value |
| AuthenticationHandlers.ParseExtraMapping | internal/api/v1/handlers/clusters.go:710-741 | The same for extra mappings, whose loop reads the slice it has just made: every entry but the first is reported as a duplicate |
| AuthenticationHandlers.ToAuthenticationConfiguration | internal/api/v1/handlers/clusters.go:837-846 | The printer with its loops returns the specified value |
| AuthenticationProperties.PrintedParsesBack | internal/api/v1/handlers/clusters.go:540-1001 | Printing and parsing back gives the same configuration, up to its type, if and only if every claim rule repeats its required value as expression and every extra mapping and user rule is empty |
| AuthenticationProperties.UnsetListsParseBack | internal/api/v1/handlers/clusters.go:540-1001 | So it does for every configuration that leaves the three lists unset, and for none at all |
| AuthenticationProperties.ParsedPrintsBack | internal/api/v1/handlers/clusters.go:540-1001 | Parsing and printing back means the same, absent and empty strings alike, exactly under the matching condition |
| AuthenticationProperties.RuleHasNoErrors | internal/api/v1/handlers/clusters.go:616-639 | A claim rule has no errors if and only if it has neither a claim nor a required value |
| AuthenticationProperties.ParsesWithoutErrorsIffAccepted | internal/api/v1/handlers/clusters.go:555-741 | A configuration has no errors if and only if issuer URLs are unique and differ from their discovery URLs, no audience is empty, and the rules for claims, prefixes and extra mappings hold |
| AuthenticationErrors.ErrorsAreExactly | internal/api/v1/handlers/clusters.go:555-741 | Every fault of a configuration, given case by case with its path and its reason, is reported exactly once, and nothing else is |
| Rbac.Client.CreateOrPatch | pkg/authorization/authorization.go:51-78 | Creates or overwrites one object: each field that is given holds what is given afterwards, whatever it held before, and every other field and object is as before; reports whether it created, patched or left it |
| Authorization.ReconcileOrganizationSuperUser | pkg/authorization/authorization.go:33-135 | Writes the super user role of an organization and the binding of its members with that role |
| Authorization.ReconcileOrganizationReader | pkg/authorization/authorization.go:137-233 | Writes the reader role and the binding of all its members |
| Authorization.ReconcileOther | pkg/authorization/authorization.go:235-320 | Writes the role on invitations named after the organization and its binding to the group of all subjects |
| Authorization.ReconcileOrganizationAuthorization | pkg/authorization/authorization.go:322-341 | All of them together, for an organization with a namespace, which the source asks of its caller |
| Authorization.ReconcileOrganization | internal/controller/organization_controller.go:97-133 | The caller: writes all of them, and nothing for an organization without a namespace |
| Authorization.ReconcileClusterAuthorization | pkg/authorization/authorization.go:343-477 | The aggregated role and the three tiers |
| Authorization.ReconcileMemberAuthorization | pkg/authorization/authorization.go:479-698 | The bindings of a member, with the early returns by role |
| Authorization.ReconcileUserAuthorization | pkg/authorization/authorization.go:700-770 | A user's role on itself and its binding |
| AuthorizationRuns.ReconcileAll | pkg/authorization/authorization.go:322-770 | Any sequence of these reconciliations leads to the store that the specification of the sequence gives |
| AuthorizationRuns.OrderDoesNotMatter | pkg/authorization/authorization.go:322-770 | Two sequences of the same reconciliations, in any order and with any repetitions, end in the same store from any store, unless names clash |
| AuthorizationRuns.ConfluentIffNoCollision | pkg/authorization/authorization.go:36-81 | The order and number of reconciliations never matter if and only if no name of a user's objects is also an organization's |
| AuthorizationRuns.CollisionsByName | pkg/authorization/authorization.go:703-740 | For names without colons that is: no organization with a namespace called `user` beside a user with one of the six suffixes for a name |
| AuthorizationTable.AuthorizerAgreesWithTable | pkg/authorization/authorization.go:322-770 | After every schedule that reconciles everything, in whatever order and how often, the authorizer allows exactly what the table of rights says, for every user and request, unless names clash |
| AuthorizationTable.ObjectsBelong | pkg/authorization/authorization.go:33-770 | After every schedule each object has the owner, by kind, name and UID, and the label of what it was written for; the aggregated role has its selector |
| AuthorizationHistories.OrganizationRightsFollow | pkg/authorization/authorization.go:33-233 | However organizations, members, roles and users have changed and whatever was reconciled on the way: once everything there is now has been reconciled, an organization can be read by exactly its members of now and changed by exactly its super users of now, unless its names clash with those of a user reconciled earlier |
| AuthorizationClashes.AgreesIffNoCollision | pkg/authorization/authorization.go:322-770 | It always does if and only if no names clash |
| AuthorizationClashes.ClashLosesItself | pkg/authorization/authorization.go:33-320 | After every schedule that ends with an organization whose names clash with a user's, the user may not even read itself |
| AuthorizationTable.NoRightsInOtherNamespaces | api/apiutil/apiutil.go:162-179 | In a namespace where a subject is no member it is allowed, of all resources but organizations and users, nothing but to delete and patch invitations that bear an organization's name |
| AuthorizationTable.OrganizationsBelongToMembers | pkg/authorization/authorization.go:33-233 | An organization can be read by exactly its members, and changed by exactly its super users |
| AuthorizationTable.MemberIsAllowed | pkg/authorization/authorization.go:479-698 | After every schedule the authorizer allows a member in its namespace whatever its role may do |
| AuthorizationTable.RaisingOnlyAdds | pkg/authorization/authorization.go:479-698 | Reader, user, super user form a chain: raising the role of a member takes no right from anyone, as the authorizer decides after any schedules before and after |
| AuthorizationTable.RaisingAddsIff | pkg/authorization/authorization.go:366-477 | The chain is strict: raising a member adds a right for its user if and only if no member of the namespace stands for that user with the new role or a higher one |
| AuthorizationTable.ReconcileRoles | pkg/authorization/authorization.go:479-698 | Reconciling one member again and again while its role changes |
| AuthorizationTable.HighestRoleCounts | pkg/authorization/authorization.go:603-697 | After any such run the store is the one that the highest role of the run gives |
| AuthorizationTable.BindingsAfterRun | pkg/authorization/authorization.go:603-697 | Which of the three bindings exist after a run: those that existed before it and those of the roles it saw |
| AuthorizationTable.LastRoleCountsIffHeld | pkg/authorization/authorization.go:603-697 | From any store, the last role alone gives the same store if and only if the store already held what the highest role writes beyond it |
| AuthorizationTable.LastRoleCountsIffHighest | pkg/authorization/authorization.go:603-697 | From a store without the member's bindings: if and only if no earlier role was higher |
| IdentityHandlers.Server.ReconcileUser | internal/controller/user_controller.go:47-145 | The reconciliation with its writes in sequence, the ready condition read before or after verification, ends in the specified state, and an error leaves the state alone |
| IdentityHandlers.Server.ReconcileNonDockyardsProvidedUser | internal/controller/user_controller.go:147-190 | Succeeds exactly if the identity provider is known, and then makes a user without a ready condition ready |
| IdentityHandlers.Server.ReconcileUserVerification | internal/controller/user_controller.go:192-226 | Creates or patches the sign-up request and makes the user ready if it is verified |
| IdentityHandlers.Server.ReconcileVerificationRequest | internal/controller/user_controller.go:228-275 | Creates or patches the request for the user, good for 30 minutes, drawing a code only if it has none, a drawn code decoding to the bytes drawn; the body text is the text with the code in it; what is stored is returned |
| IdentityHandlers.Server.UpdateGlobalVerificationRequest | internal/api/v1/handlers/verify.go:30-77 | Succeeds if and only if the code of an account request matches exactly one request in time, whose Verified condition is then true |
| IdentityHandlers.Server.ResetPassword | internal/api/v1/handlers/passwords.go:77-130 | Uses up the one request with the code, and writes the password if and only if the request is in time and its user is there and admitted |
| IdentityHandlers.Server.BeginReset | internal/api/v1/handlers/passwords.go:80-101 | The part up to the deletion: the one request with the code, of whatever kind, is gone |
| IdentityHandlers.Server.EndReset | internal/api/v1/handlers/passwords.go:103-129 | The part after the deletion, at any later time |
| IdentityHandlers.Server.CreateGlobalPasswordResetRequest | internal/api/v1/handlers/passwords.go:132-205 | Creates a request for the one dockyards user with the address and pretends success if there is no user |
| IdentityHandlers.Server.ValidateUserObject | internal/webhooks/user_webhook.go:59-135 | Admits a user if and only if its address parses, no other user has it and its domain is allowed, in whatever order users are listed |
| IdentityHandlers.Server.ValidateInvitationCreate | internal/webhooks/invitation_webhook.go:87-157 | Admits an invitation if and only if its address parses, is not invited to the namespace, and is not that of a listed member |
| IdentityHandlers.Server.ValidateInvitationUpdate | internal/webhooks/invitation_webhook.go:69-85 | Denies with exactly the changed immutable fields, if any, and otherwise checks the update like a new invitation |
| IdentityHandlers.Server.CreateOrganizationInvitation | internal/api/v1/handlers/invitations.go:38-86 | Creates the invitation in the organization's namespace if the webhook admits it |
| IdentityHandlers.Server.UpdateGlobalInvitation | internal/api/v1/handlers/invitations.go:235-312 | Accepting: the member is created, then the invitation deleted; a failure leaves the state alone |
| IdentityHandlers.Server.DeleteGlobalInvitation | internal/api/v1/handlers/invitations.go:191-233 | Declining succeeds exactly if there is one invitation for the subject, which it deletes |
| IdentityHandlers.Server.CreateGlobalOrganization | internal/api/v1/handlers/orgs.go:109-253 | Founding an organization with a namespace of its own makes the founder its first member, a super user, without an invitation |
| IdentityHandlers.Server.DeleteOrganizationMember | internal/api/v1/handlers/members.go:61-88 | Removes the member of the given name, or of the subject's if the name is `@me`, and fails exactly if there is none |
| IdentityHandlers.Server.ReconcileInvitation | internal/controller/invitation_controller.go:36-48 | Deletes an invitation that has expired |
| IdentityInvariants.StepKeepsInv | internal/webhooks/user_webhook.go:79-106 | Every step keeps: no two users share an address or UID; every sign-up request belongs to the dockyards user it is named after and spells out its own code; every other request is a password-reset request; every request was made for a user that is there; no request shares its UID with another or with a reset under way; no address is invited twice to a namespace |
| IdentityInvariants.UpdatesAreNeverAdmitted | internal/webhooks/invitation_webhook.go:84-106 | The update of a stored invitation is always denied |
| IdentityRuns.RunKeepsInv | internal/webhooks/user_webhook.go:79-106 | The invariant holds in every reachable state |
| IdentityRuns.ListsFindAtMostOne | internal/api/v1/handlers/passwords.go:153-157 | In every reachable state at most one user has an address and at most one invitation is for it in a namespace, so the branches for more are never taken |
| IdentityRuns.ReadyWasVerified | internal/controller/user_controller.go:85-92 | In every run a ready dockyards user has had its own sign-up request verified by an earlier step with its code, when no other request had that code, at most 30 minutes after the request was created |
| IdentityRuns.VerifiedWasMarked | internal/api/v1/handlers/verify.go:35-71 | A verified sign-up request has been marked by such a step for the very user, by UID, it belongs to |
| IdentityRuns.LoginWasVerified | internal/api/v1/handlers/login.go:36-55 | In every run a user that can log in is the only one its address finds, and its sign-up request has been verified |
| IdentityRuns.ReadyStaysReady | internal/controller/user_controller.go:62-92 | No step makes a ready user not ready |
| IdentityRuns.SignUpCodeStays | internal/controller/user_controller.go:252-263 | As long as a sign-up request lives, its UID, its code and its text stay, and the code stands in the text after the first words |
| IdentityRuns.OthersHaveNoSignUp | internal/controller/user_controller.go:85-92 | In every run, users from another provider have no sign-up request |
| IdentityFixpoint.UnchangedIffQuiet | internal/controller/user_controller.go:47-145 | In any state, reconciling a user changes nothing if and only if the user is quiet, an explicit condition on the state: gone, from an unknown provider, settled with its roles written and its request gone, or not ready with an unverified request out; whatever is drawn and read |
| IdentityFixpoint.ReconcileRanks | internal/controller/user_controller.go:47-145 | Every reconciliation that changes something lowers the user's rank, which is at most two; with the condition read again it is zero at once |
| IdentityFixpoint.OthersKeepTheirRank | internal/controller/user_controller.go:47-145 | Reconciling one user leaves the rank of every other user as it is |
| IdentityFixpoint.AtMostTwoChanges | internal/controller/user_controller.go:47-145 | From any state, without external steps and for as long as it goes on, at most two reconciliations of a user change the store |
| IdentityFixpoint.ReconciliationComesToRest | internal/controller/user_controller.go:47-145 | After two reconciliations of a user, or one that changed nothing, every later one changes nothing |
| IdentityFixpoint.TakenBeforeItTakesTwo | internal/controller/user_controller.go:83-94 | The bound is met: read before verification, the ready condition leaves one more change to do |
| IdentityEffects.VerificationVerifies | internal/api/v1/handlers/verify.go:60-71 | A verification that can succeed makes the one request verified and changes nothing else; any other changes nothing |
| IdentityEffects.SignUpCanVerifyIff | internal/api/v1/handlers/verify.go:31-58 | For a sign-up request it can exactly if it is for an account, no other request has the code, and the request is at most 30 minutes old |
| IdentityEffects.VerificationMakesReady | internal/controller/user_controller.go:192-226 | A code presented in time makes its user ready with the next reconciliation, whatever is read |
| IdentityEffects.ReadyIsVerified | internal/controller/user_controller.go:210-219 | The ready condition is then that of the request, with its reason, message and time |
| IdentityEffects.UnverifiedUsersAreAsked | internal/controller/user_controller.go:83-90 | A dockyards user that is neither ready nor verified has its sign-up request out after a reconciliation; a new one belongs to the user by UID and its code decodes to the bytes drawn |
| IdentityEffects.ProvidedUsersBecomeReady | internal/controller/user_controller.go:147-190 | A user from a known provider is ready and settled after one reconciliation |
| IdentityEffects.ProviderKnownIff | internal/controller/user_controller.go:152-166 | A provider is known if and only if what comes before the first `://` names an identity provider in the public namespace |
| IdentityEffects.TextsSpellCodes | internal/controller/user_controller.go:262 | In every reachable state the text of every request, of either kind, spells out the code of the request |
| IdentityEffects.CreationTimesAreTrue | internal/api/v1/handlers/verify.go:52-58 | In every run, what a request says about its creation is true: it was created then and has been the same object since |
| IdentityEffects.UserAdmittedIff | internal/webhooks/user_webhook.go:59-135 | A user is admitted if and only if its address parses, no other user has it, and no domains are prescribed, it has a voucher, or its parsed address ends in one of them |
| IdentityResets.WritesForTheOwner | internal/api/v1/handlers/passwords.go:80-127 | In every run, a reset that writes a password writes one: that of the very user, by UID, its request was made for, the password being the one presented with the request's code when the request was used up, in time both then and at the write |
| IdentityResets.LateResetsNeverWrite | internal/api/v1/handlers/passwords.go:96-109 | In every run, a request that is used up after its expiry is never followed by a password write with its UID |
| IdentityResets.SignUpCodesAreResetCodes | internal/api/v1/handlers/passwords.go:80-127 | In every reachable state, a reset with a code that only a user's sign-up request has removes that request and writes that user's password if and only if it comes to it at most 30 minutes after the request was created |
| IdentityResets.SignUpCodeResetsPassword | internal/api/v1/handlers/passwords.go:80-127 | The same for every state with the invariant, in so far as the user is admitted |
| IdentityResets.UsesUpPasswordResetIff | internal/api/v1/handlers/passwords.go:80-98 | In every reachable state, the request that a reset uses up is a password-reset request, good for ten minutes, if and only if the one request with the code is not a user's sign-up request |
| IdentityResets.ResetCodesReset | internal/api/v1/handlers/passwords.go:80-127 | In every reachable state, a reset with the code of a password-reset request removes it and writes the password of the user it was made for if and only if it comes to it at most ten minutes after the request was created |
| IdentityEffects.ResetIsRequestedIff | internal/api/v1/handlers/passwords.go:135-199 | A request is made exactly if the address is that of a user that Dockyards itself provides; it is for that user, good for ten minutes from now, and its code decodes to the bytes drawn |
| IdentityResets.OnlyResetsAndUpdatesWrite | internal/api/v1/handlers/passwords.go:122-127 | No other step changes a password |
| IdentityResets.OneWritePerRequest | internal/api/v1/handlers/passwords.go:96-127 | In every run, no request leads to two passwords |
| IdentityResets.WritesFollowRemoval | internal/api/v1/handlers/passwords.go:96-127 | In every run, a password is written after its request has been removed, and that request never comes back |
| IdentityResets.WritesNeverExceedRequests | internal/api/v1/handlers/passwords.go:80-127 | In every run, at any time, passwords written by resets, requests still there and resets under way add up to no more than the requests created |
| IdentityInvitations.OrderOfUsersSaysNothing | internal/webhooks/invitation_webhook.go:116-126 | The webhook looks at the first listed user only, and there is never another one |
| IdentityEffects.InvitationIsMadeIff | internal/webhooks/invitation_webhook.go:87-157 | An invitation is made if and only if the organization has a namespace, the address parses, is not invited there, and is not that of a user that an organization of the namespace lists as a member |
| IdentityInvitations.AcceptExchanges | internal/api/v1/handlers/invitations.go:256-309 | Acceptance succeeds if and only if there is an invitation for the subject's address and no such member; it removes exactly that invitation and adds exactly one member with its role |
| IdentityEffects.DeclineRemoves | internal/api/v1/handlers/invitations.go:191-233 | Declining removes the invitation for the subject's address in the namespace, if there is one, and nothing else |
| IdentityInvitations.ExpiredIsAccepted | internal/api/v1/handlers/invitations.go:256-309 | An expired invitation that is still there is accepted: it goes and the member is added with its role |
| IdentityInvitations.ExpiryIsRespectedIff | internal/api/v1/handlers/invitations.go:256-309 | An acceptance respects the expiry of the invitation it could take if and only if that has no duration or is not past it |
| IdentityInvitations.AcceptedInTimeIff | internal/controller/invitation_controller.go:36-48 | A run accepts no expired invitation if and only if no acceptance falls between the expiry of an invitation and the reconciliation that deletes it |
| IdentityInvitations.InvitationsNeverChange | internal/webhooks/invitation_webhook.go:69-111 | No step changes an invitation, and a new one is what an invite step made |
| IdentityInvitations.AcceptedRoleWasGiven | internal/api/v1/handlers/invitations.go:272-297 | In every run, the role of an accepted member is the one that an earlier step gave when it invited that address to that namespace |
| IdentityInvitations.InvitationsBalance | internal/api/v1/handlers/invitations.go:38-309 | In every run, at any time, every invitation made is still open, has been accepted or has been discarded; members are those that accepted or founded an organization, less those removed |
| IdentityInvitations.AcceptancesNeverExceedInvitations | internal/api/v1/handlers/invitations.go:263-309 | So acceptances and open invitations never exceed the invitations made |

## Left out

- Library parsers (mail addresses, prefixes, tolerant versions, group versions, the text of a workload reference) are parameters; of the prefix parser it is assumed that what it returns is a valid prefix.
- The wrap-around of the minor version at 2^64: minors and patches are unbounded.
- Cache lag, conflicting writes and failing API calls: a step sees the current store and its writes happen, apart from the lookups whose failures are parameters. A password reset is split at the deletion of its request; every other handler is one step.
- Deletion of users and organizations and garbage collection of what they own.
- IdentityHandlers.Server.CreateGlobalOrganization: leaves out vouchers, display names and durations, and the webhook that may deny an organization.
- The immutability of role references and the aggregation of rules into `dockyards:authenticated`, which the API server enforces and fills in.
- AuthorizationTable.AuthorizerAgreesWithTable: starts from an empty store and a fixed set of organizations, members and users; for stores that held something before see AuthorizationRuns.OrderDoesNotMatter, for organizations and members that change AuthorizationHistories.OrganizationRightsFollow, for changing roles AuthorizationTable.HighestRoleCounts.
- Password hashing, tokens and the random source: passwords and drawn bytes are given values.
- The lower-case check of extra mapping keys, which reads keys that are always empty.
- AuthenticationHandlers.ParseUserValidationRules: paths and errors that the source passes on and does not use are dropped.
- The order of conditions in an object's list, their observed generations and the status time stamps of invitations.
- BubbleBabble.RandomWithEntropyOfAtLeast: asks for a byte count that is not negative, since the source panics on a negative one when it allocates.
- The defaulting of a cluster's version and the checks on updates and deletion of clusters that only compare a field.
- HTTP, routing, logging, metrics, single sign-on, the other reconcilers, handlers and webhooks.
