# guardata: certificates, invitations, realms, blocks, sync and queries

A Dafny model of the parts of guardata whose correctness depends on histories, orders and graphs rather
than on one function at a time.

| part | files | question |
|---|---|---|
| Certificate trustchain | `Certificates`, `Trustchain`, `CertificateCollection`, `TrustchainProvenance`, `TrustchainContext`, `UserStore`, `UserComponent`, `UserRuns`, `BackdatedRevocation`, `TrustchainExtraction`, `TrustchainEndToEnd`, `TrustchainSessions` | which sets of certificates a client accepts, and whether it accepts what the server sends |
| Invitation conduit | `Conduit`, `ConduitProtocol`, `ConduitProgress` | what two parties that may leave and reset at any step learn from each other |
| Realms and vlobs | `Reencryption`, `RealmRoles`, `ChangeIndex`, `VlobBackend`, `VlobComponents`, `VlobRuns`, `VlobPermissions` | what two components that share state keep over every run, reencryptions included |
| RAID5 block store | `Raid5Xor`, `Raid5`, `Raid5Read` | what comes back from any order of answers and failures |
| Client sync | `SyncScheduler`, `SyncContext` | when a change is synced, and that none is lost |
| Query templates | `QueryTemplate` | that replacing one name after another is replacing all at once |

`Common` holds shared datatypes, `Reachability` paths in graphs.

Conventions:

- Signatures are abstract: `Crypto` says which signatures check under which key and how a payload parses.
  A certificate that checks yields the content that its unsecured reading yields.
- Time is a parameter: an integer count of microseconds on the server and in certificates, a real in the sync scheduler.
- An exception is a value of a `Result`, `Option` or status datatype.
- A coroutine is cut at the points where it can be suspended; everything in between is one step.
- Methods of classes update fields in place and are specified by functions on a snapshot of those fields;
  the statements about runs are about those functions.

Where the code does not do all that its documentation or its layout suggests, the model follows the code:

- The in-memory poll and the SQL poll differ for a checkpoint that the log has not reached, and for a negative
  one on an empty log (`ChangeIndex.PollsAgree` gives the exact condition).
- Roles by date and roles by arrival can differ when accepted certificates are dated out of order
  (`RealmRoles.ViewsAgree` gives the exact condition, `RealmRoles.ViewsCanDiffer` an accepted history).
- The due time of a sync context is not always at most the larger of the back-off and the earliest tracked due time.
  Two steps can take it past: a remote change while a local change is overdue, and the end of a tick that leaves remote
  changes while a local change was overdue at its start. `SyncScheduler.StepBound` and `SyncScheduler.RunBound` give the
  exact condition for every step and every run, and each of the two has a witness. A due time that is still to come
  always meets the bound.
- A block created while one data store was out of reach can be read as long as that store stays out of reach;
  once it is back and answers "not found", reading fails on a sanity check (`Raid5Read.ReadWithLostChunk`).
- The server compares dates with its clock within half an hour, not with each other. A revocation may so be dated before
  a certificate that its user signed already, or before one that is accepted until the revocation event has closed the
  user's connections (backendService/app.py:150-158). A certificate dated after the revocation of its author makes the
  answer unusable for a fresh client, and nothing else does (`UserRuns.EveryReachedAnswerLoads`);
  `BackdatedRevocation.AcceptedHistoryIsRefused` is such a history.

## Model

| member | source | states |
|---|---|---|
| `Trustchain.VerifiedHasChain` | guardata/client/trustchain.py:246-269 | a device that the recursion accepts has a chain of supplied devices down to the root key, and yields the content supplied for it |
| `Trustchain.ChainsAreLoopFree` | guardata/client/trustchain.py:247-249 | a chain to the root key never repeats a device |
| `Trustchain.ChainIsVerified` | guardata/client/trustchain.py:246-269 | a device with such a chain is accepted, as long as no device of the chain is among the children being verified above it |
| `Trustchain.VerifyDeviceDecidesChains` | guardata/client/trustchain.py:204-269 | the recursion, which ends because it only meets supplied devices not met before, accepts exactly the devices with a chain |
| `Trustchain.VerifyUserDecides` | guardata/client/trustchain.py:271-284 | a user certificate passes exactly when the root key or the chained device of another user, an administrator not revoked before, signed it |
| `Trustchain.VerifyRevokedDecides` | guardata/client/trustchain.py:286-302 | the same for revocation certificates |
| `CertificateCollection.CollectedStates` | guardata/client/trustchain.py:139-180 | collecting fails exactly when a certificate does not parse, and otherwise gives one state per identifier, cached contents first |
| `CertificateCollection.CollectIgnoresOrder` | guardata/client/trustchain.py:143-177 | with one certificate per identifier the states do not depend on the order of supply |
| `CertificateCollection.CollectStates` | guardata/client/trustchain.py:143-177 | the loops over the supplied certificates build those states |
| `CertificateCollection.ServedWhileYoung` | guardata/client/trustchain.py:48-78 | a content comes from the cache exactly while it was filed there less than the validity ago, and from the supplied certificate otherwise |
| `TrustchainProvenance.AcceptedContentsAreTrusted` | guardata/client/trustchain.py:182-192 | once a set is accepted, every content read optimistically is itself vouched for by signatures that lead to the root key |
| `TrustchainProvenance.FreshCertificatesAreWellAuthored` | guardata/client/trustchain.py:217-242 | every fresh certificate signed for another user has an author that is a vouched administrator, and none is dated after a supplied revocation of its author |
| `TrustchainProvenance.AcceptanceIgnoresOrder` | guardata/client/trustchain.py:304-316 | acceptance does not depend on the order of the state dictionaries |
| `TrustchainLoading.LoadDecidesAcceptance` | guardata/client/trustchain.py:304-316 | no error is raised exactly when every certificate not served from the cache has its chain |
| `TrustchainLoading.VerifyAll` | guardata/client/trustchain.py:306-316 | the three loops overwrite each content with itself and stop at the first error |
| `TrustchainLoading.Populate` | guardata/client/trustchain.py:318-330 | exactly the contents that were not served from the cache are filed, under their own identifiers, as of now |
| `TrustchainLoading.LoadKeepsTrust` | guardata/client/trustchain.py:304-330 | if the caches held trusted contents, they do so after an accepted load |
| `TrustchainLoading.OnlyYoungContentsAreServed` | guardata/client/trustchain.py:48-78 | in a load, what was verified longer ago than the cache validity is verified again, and nothing else that is cached |
| `TrustchainLoading.VerdictIgnoresSupplyOrder` | guardata/client/trustchain.py:126-137 | the same certificates in another order lead to the same verdict |
| `TrustchainLoading.Select` | guardata/client/trustchain.py:102-124 | succeeds exactly when the first user, the first revocation if asked and the first devices all bear the expected identifier, if one is given; names the first one in that order that does not, and gives those contents otherwise |
| `TrustchainLoading.SelectedAreExpected` | guardata/client/trustchain.py:102-124 | whatever is selected is about the expected user, and a refusal names the first of the compared identifiers that is not its |
| `TrustchainLoading.TrustchainContext.LoadTrustchain` | guardata/client/trustchain.py:126-336 | the outcome and the caches after it, for any call; the caches stay verified down to the root key |
| `TrustchainLoading.TrustchainContext.LoadUserAndDevices` | guardata/client/trustchain.py:80-124 | loads the set with the user's own certificates first; once the set is accepted it answers exactly when every content asked for bears the expected identifier, and what it answers is then all about that user |
| `TrustchainLoading.TrustchainContext.InvalidateUserCache` | guardata/client/trustchain.py:45-46 | drops one user from the cache, which stays verified |
| `UserStore.NewUserKeepsInvariant` | backendService/memory/user.py:42-58 | a user created with certificates signed by an administrator or the root key keeps the store valid, and nothing stored before changes |
| `UserStore.NewDeviceKeepsInvariant` | backendService/memory/user.py:69-81 | the same for a device signed by a device of its own user |
| `UserStore.RevocationKeepsInvariant` | backendService/user.py:434-445 | the same for a revocation by another user, an administrator; the handle to release is always there |
| `UserStore.AuthenticStays` | backendService/user.py:297-302 | what the handshake established about a connection stays true whatever is stored meanwhile |
| `UserComponent.MemoryUserComponent.CreateUser` | backendService/memory/user.py:42-58 | refused for a taken user id or human handle, else exactly this user, device and handle are added |
| `UserComponent.MemoryUserComponent.CreateDevice` | backendService/memory/user.py:69-81 | the two refusals, else exactly this device is added |
| `UserComponent.MemoryUserComponent.ApiUserCreate` | backendService/user.py:295-402 | accepted exactly for an administrator, four good signatures, equal fresh dates, matching ids and redactions, free names; else the status of the first failing check; the store then holds each certificate as the plain or the redacted one that it was sent as |
| `UserComponent.UserCreateKeeps` | backendService/user.py:307-402 | the store stays valid whatever the request |
| `UserComponent.MemoryUserComponent.ApiDeviceCreate` | backendService/user.py:478-539 | accepted exactly for one's own new device with good signatures, a date within half an hour and a matching redaction, stored with both certificates; else the status of the first failing check |
| `UserComponent.DeviceCreateKeeps` | backendService/user.py:480-539 | the store stays valid whatever the request |
| `UserComponent.MemoryUserComponent.ApiUserRevoke` | backendService/user.py:404-452 | accepted exactly for an administrator revoking another user, known and not revoked yet; else the status of the first failing check |
| `UserComponent.RevokeKeeps` | backendService/user.py:406-452 | the store stays valid whatever the request |
| `UserComponent.MemoryUserComponent.Bootstrap` | backendService/organization.py:197-326 | taken as one step, accepted exactly when the organization has no root key, with the good token, for an administrator signed by the root key that it sets; else the status of the first failing check; a missing redacted certificate is replaced by the plain one |
| `UserComponent.BootstrapFits` | backendService/organization.py:197-326 | the bootstrapped store is valid |
| `UserRuns.EveryReachedStoreFits` | backendService/memory/user.py:42-81 | every store reached by any sequence of accepted requests is valid |
| `UserRuns.HistoryOnlyExtends` | backendService/memory/user.py:42-81 | along a history nothing recorded changes, except that a user is revoked once |
| `UserRuns.EveryReachedAnswerLoads` | backendService/memory/user.py:151-174 | for every reached store and every user, a client with empty caches accepts the answer exactly when no certificate in it is dated after its author's revocation, the one error it can raise |
| `UserRuns.EveryRedactedAnswerHides` | backendService/user.py:342-385 | for every reached store, a redacted answer shows a handle only of a user that the bootstrap stored without a redacted certificate, and a label only of a device whose request had none |
| `UserRuns.EveryPlainAnswerShows` | backendService/memory/user.py:151-174 | for every reached store, a plain answer shows every stored handle and label |
| `BackdatedRevocation.HistoryIsServed` | backendService/user.py:404-452 | a bootstrap, a second user, a device of that user and then a revocation dated before that device: every request is accepted |
| `BackdatedRevocation.AcceptedHistoryIsRefused` | guardata/client/trustchain.py:235-242 | after this history every answer about the user is refused by a fresh client, for the date |
| `BackdatedRevocation.LoadBob` | guardata/client/trustchain.py:80-124 | the same with both programs in sequence |
| `UserComponent.MemoryUserComponent.GetUserWithDevices` | backendService/memory/user.py:151-174 | the server object answers for exactly the users it knows, with exactly the closure |
| `UserComponent.MemoryUserComponent.ApiUserGet` | backendService/user.py:169-191 | an outsider gets the redacted answer, in which no certificate bears a handle or a label that a redacted certificate hides; anybody else gets every stored handle and label |
| `UserComponent.RedactedAnswerIsDiscreet` | backendService/memory/user.py:151-174 | in a valid store a redacted answer bears a handle or a label only where user or device have a single certificate |
| `UserComponent.PlainAnswerIsComplete` | backendService/memory/user.py:151-174 | in a valid store a plain answer bears the stored handle and labels |
| `TrustchainExtraction.TrustchainCollector.ExtractCreators` | backendService/memory/user.py:94-106 | visits only devices that the start reaches, and everything newly visited has its certifiers visited; the certificate sets hold exactly what belongs to the visited devices |
| `TrustchainExtraction.GetTrustchain` | backendService/memory/user.py:83-115 | from several starting points the collected devices are exactly those reached along the certifier links |
| `TrustchainExtraction.GetUserWithDevicesAndTrustchain` | backendService/memory/user.py:151-174 | the answer is exactly the user's certificates and those of the closure, redacted or not |
| `TrustchainEndToEnd.AnswerSuppliesCertifiers` | backendService/memory/user.py:104-106 | the certifiers of everything in an answer are in the answer, each with its user |
| `TrustchainEndToEnd.MirrorsAreLinked` | guardata/client/trustchain.py:204-244 | for each certificate of an answer, acceptance comes down to the date and to the author's chain |
| `TrustchainEndToEnd.FollowersAreLinked` | guardata/client/trustchain.py:204-244 | the same for dictionaries with cached contents, as long as these agree with the store up to human handles and device labels |
| `TrustchainEndToEnd.LinkedFailsOnDatesOnly` | guardata/client/trustchain.py:204-302 | such a set never fails for a missing certificate, a loop, a self-signature, a bad signature or an author that is no administrator |
| `TrustchainEndToEnd.AnswerIsAcceptedUnlessPosterior` | backendService/memory/user.py:151-174 | for a valid store, the answer is accepted if and only if nothing in it is dated after its author's revocation |
| `TrustchainEndToEnd.LoadingAnAnswer` | guardata/client/trustchain.py:80-124 | the outcome of loading an answer, and that what is returned are the contents of the user that was asked for |
| `TrustchainEndToEnd.SelectionIsTheUser` | guardata/client/trustchain.py:102-124 | the first results are the asked user's, whatever else the trustchain holds |
| `TrustchainEndToEnd.AskAndLoad` | guardata/client/trustchain.py:80-124 | the two programs one after the other: ask the server object, load in a fresh context |
| `TrustchainSessions.AgreementStays` | guardata/client/trustchain.py:318-330 | caches that agree with a store agree with whatever it grows into |
| `TrustchainSessions.LoadKeepsAgreement` | guardata/client/trustchain.py:318-330 | storing what a load verified keeps the caches in agreement with the store |
| `TrustchainSessions.CachedLoadFailsOnDatesOnly` | guardata/client/trustchain.py:126-336 | on top of any caches that agree with the store an answer parses, fails for a date only, and is accepted when nothing in it is dated after its author's revocation |
| `TrustchainSessions.EveryLoadFailsOnDatesOnly` | guardata/client/trustchain.py:80-124 | the same for every load of a session on a growing store: any users, redacted or not, entries cached, expired or invalidated, earlier loads accepted or not |
| `ConduitModel.MemoryInviteComponent.ConduitTalk` | backendService/memory/invite.py:64-118 | with the invitation found, fails exactly after the first state, when the conduit is in another state or holds what this side said; in the first state it drops what was there instead; the conduit, the listening context and the event after it |
| `ConduitModel.MemoryInviteComponent.ConduitListen` | backendService/memory/invite.py:120-168 | what a listener hears, and the step to the next state when it consumes the round |
| `ConduitProtocol.EveryRunKeepsInvariant` | backendService/invite.py:698-728 | the invariant of conduit, tasks, flags, queue and history holds after every interleaving |
| `ConduitProtocol.Agreement` | backendService/memory/invite.py:64-168 | both sides that return from a round hold each other's payload, in the repeated last state too |
| `ConduitProtocol.ReturnedWasTalked` | backendService/memory/invite.py:120-168 | what an exchange returns was talked by the peer in that round since the last reset, and nothing else was |
| `ConduitProtocol.NoReturnAcrossReset` | backendService/memory/invite.py:83-96 | an exchange returns only in the epoch it talked in |
| `ConduitProtocol.StartingOverIsHeard` | backendService/memory/invite.py:83-103 | in every reached world an idle side that talks in the first state waits, on a conduit in that state that holds what it said |
| `ConduitProtocol.TalkIsHeard` | backendService/memory/invite.py:83-103 | in every reached world a talk in a later state is heard exactly when it is in the conduit's own state and its side has not spoken in it, and changes nothing otherwise |
| `ConduitProtocol.EarlierStatesWereConsumed` | backendService/invite.py:85-93 | in state k both sides have talked in every earlier state, in order, and each round was consumed |
| `ConduitProtocol.NoncesComeInOrder` | backendService/invite.py:424-531 | the greeter's nonce is stored only once the hashed nonce was consumed, the claimer's only once the greeter's was |
| `ConduitProtocol.NobodyIsStuck` | backendService/invite.py:718-728 | with no event on its way, whoever waits does so in an open round that no reset has passed by, and the two never wait for each other |
| `ConduitProtocol.WakingUpIsDecided` | backendService/memory/invite.py:120-168 | in every reached world a woken task ends with nothing after a reset, returns what the peer had said from a round the peer consumed, consumes an open round that the peer has answered, and waits on otherwise |
| `ConduitProtocol.InternalStepsEnd` | guardata/event_bus.py:19-39 | wake-ups and event deliveries count down: they cannot go on without a new talk |
| `ConduitProgress.ExchangeCompletes` | backendService/invite.py:698-728 | from any reached moment at which both sides have talked in one round, whatever the order of deliveries and wake-ups, once nothing is on its way both have returned with each other's payload |
| `ConduitProgress.WaitingSidesReturn` | backendService/invite.py:721-728 | the same for any two sides that wait in one open round: both return, each with what the other one talked |
| `ConduitProgress.QuietComes` | backendService/memory/factory.py:25-33 | as long as something is on its way, some delivery or wake-up brings the end nearer |
| `ConduitProgress.StartingOverCompletes` | backendService/memory/invite.py:83-96 | from every reached world, whatever was left in conduit, tasks and queue, some run starts over and both sides return from all seven states, each with what the other said |
| `ReencryptionModel.SaveKeepsPartition` | backendService/memory/vlob.py:77-88 | saving fails exactly on an unknown key; done and todo stay a partition of all versions and nothing done changes |
| `ReencryptionModel.FailedSaveKeepsPrefix` | backendService/memory/vlob.py:77-88 | a failed batch has saved exactly what precedes its first unknown version |
| `ReencryptionModel.DoneAfterGivesFirst` | backendService/memory/vlob.py:79-86 | in a sequence of saved entries, the first one for a version is the one that stays |
| `ReencryptionModel.RequestsSave` | backendService/memory/vlob.py:77-88 | over any sequence of gets and saves, repeats and failures included, what is done comes from the saved entries in order, each failed batch up to its first unknown version |
| `ReencryptionModel.BatchIsFirstTodo` | backendService/memory/vlob.py:69-75 | a batch is the first entries still to do, and the check against what is done never drops one |
| `ReencryptionModel.RoundsMakeProgress` | backendService/memory/vlob.py:69-88 | after n get and save rounds exactly n times the size, or everything, is done |
| `ReencryptionModel.FinishedInCeilRounds` | backendService/memory/vlob.py:66-88 | from the start a client is finished after ceil(total / size) rounds and no earlier |
| `ReencryptionModel.AnyRequestsKeepPartition` | backendService/memory/vlob.py:69-88 | any interleaving of gets, saves, repeats and failures keeps the partition |
| `ReencryptionModel.FinishedResult` | backendService/memory/vlob.py:48-64 | after any sequence of requests the result has the same vlobs, version counts, authors and dates, each version with the first blob saved for it over the whole sequence |
| `ReencryptionModel.GetReencryptedVlobs` | backendService/memory/vlob.py:48-64 | the sorted loop builds that result and its length assertion never fails |
| `ReencryptionModel.Start` | backendService/memory/vlob.py:37-46 | a new reencryption has every version of every vlob to do, once |
| `ReencryptionModel.Reencryption.NextBatch` | backendService/memory/vlob.py:69-75 | the loop over what is to do computes the batch |
| `ReencryptionModel.Reencryption.Save` | backendService/memory/vlob.py:77-88 | the loop over a batch, updating in place, reaches the specified state and answers total and done |
| `RealmRoles.ComputeRoles` | backendService/memory/realm.py:132-138 | folding the certificates in a loop |
| `RealmRoles.RoleIsLatestGranted` | backendService/memory/realm.py:41-49 | a user's role is the one of its latest certificate, the last to arrive among equal dates |
| `RealmRoles.OthersKeepTheirRole` | backendService/memory/realm.py:41-49 | a certificate of any date leaves the other users' roles alone |
| `RealmRoles.UpdateKeepsOwner` | backendService/memory/realm.py:181-196 | an accepted update leaves an owner, whatever its date |
| `RealmRoles.AcceptedHasOwner` | backendService/memory/realm.py:81-101 | after a creation and any accepted updates there is an owner |
| `RealmRoles.ViewsAgree` | backendService/memory/realm.py:128-138 | roles by date equal roles by arrival exactly when, for every user, the last certificate to arrive gives the role of the latest one |
| `RealmRoles.ArrivalInOrderIsSorted` | backendService/memory/realm.py:41-49 | certificates that arrive in order of date give equal views |
| `RealmRoles.ViewsCanDiffer` | backendService/memory/realm.py:128-138 | an accepted history of a realm in which a user has a role by date and none by arrival |
| `ChangeIndex.SameChanges` | backendService/postgresql/vlob_queries/read.py:186-198 | for every checkpoint the compacted index and the full log give the same changes |
| `ChangeIndex.PollsAgree` | backendService/memory/vlob.py:287-298 | the whole answers are equal exactly for checkpoints the log has reached, negative ones only when it is not empty |
| `ChangeIndex.PollsDifferPastTheLog` | backendService/postgresql/vlob_queries/read.py:197 | an input for which the two checkpoints differ |
| `ChangeIndex.MergeCatchesUp` | backendService/memory/vlob.py:291-298 | merging a poll takes a client from the versions of its checkpoint to the current ones |
| `ChangeIndex.PollingClientIsUpToDate` | backendService/memory/vlob.py:287-298 | a client that merges polls of a growing log from nothing holds what the log leads to |
| `VlobBackend.CreateVlobKeeps` | backendService/memory/vlob.py:210-230 | creating a vlob keeps realms, vlobs, index, log and reencryptions consistent |
| `VlobBackend.UpdateVlobKeeps` | backendService/memory/vlob.py:263-285 | so does adding a version |
| `VlobBackend.CreateRealmKeeps` | backendService/memory/realm.py:81-101 | so does creating a realm |
| `VlobBackend.UpdateRolesKeeps` | backendService/memory/realm.py:155-196 | so does an accepted role update, which leaves an owner |
| `VlobBackend.StartKeeps` | backendService/memory/vlob.py:108-116 | so does starting a reencryption of the realm's vlobs |
| `VlobBackend.SaveBatchKeeps` | backendService/memory/vlob.py:325-342 | so does saving any batch |
| `VlobBackend.FinishReplaces` | backendService/memory/vlob.py:126-129 | the end of a reencryption changes the blobs of that realm's vlobs only, and neither counts, authors nor dates |
| `VlobBackend.FinishKeeps` | backendService/memory/realm.py:266-290 | so does finishing |
| `VlobComponents.AfterFinishKeeps` | backendService/memory/vlob.py:118-130 | there is a reencryption to finish whenever finishing is not refused |
| `VlobComponents.ComputeRolesByDate` | backendService/memory/realm.py:41-49 | stable sorting and folding compute the roles by date |
| `VlobComponents.MemoryRealmComponent.Create` | backendService/memory/realm.py:81-101 | the new state and the refusal of a known realm |
| `VlobComponents.MemoryRealmComponent.GetCurrentRoles` | backendService/memory/realm.py:128-138 | the roles by order of arrival |
| `VlobComponents.MemoryRealmComponent.UpdateRoles` | backendService/memory/realm.py:155-196 | the new state and every refusal, in the order of the checks |
| `VlobComponents.MemoryRealmComponent.ParticipantsMismatch` | backendService/memory/realm.py:233-241 | recipients must be exactly the members that are not revoked |
| `VlobComponents.MemoryRealmComponent.StartReencryptionMaintenance` | backendService/memory/realm.py:216-251 | the new state of both components and every refusal |
| `VlobComponents.MemoryRealmComponent.FinishReencryptionMaintenance` | backendService/memory/realm.py:266-290 | the new state of both components and every refusal; there is a reencryption to finish whenever the hook is called |
| `VlobComponents.MemoryVlobComponent.MaintenanceStartHook` | backendService/memory/vlob.py:108-116 | records a fresh reencryption; its callers show that none was running |
| `VlobComponents.MemoryVlobComponent.MaintenanceIsFinishedHook` | backendService/memory/vlob.py:118-130 | nothing changes until all is done; then the new vlobs replace the old ones |
| `VlobComponents.MemoryVlobComponent.CheckRealmAccess` | backendService/memory/vlob.py:156-181 | the first failing check decides the error |
| `VlobComponents.MemoryVlobComponent.Create` | backendService/memory/vlob.py:210-230 | the new vlob of one version where there was none, its log entry, and every refusal |
| `VlobComponents.MemoryVlobComponent.Update` | backendService/memory/vlob.py:263-285 | accepted only as the version after the last one and not dated before it, and then appends exactly this blob, author and date; once access is granted, the refusals for the version and for the date are each exact; the log entry |
| `VlobComponents.FindVersion` | backendService/memory/vlob.py:251-256 | the loop from the top finds the last version that is early enough; when versions are dated in order, all up to it are at or before the time and later ones after |
| `VlobComponents.MemoryVlobComponent.Read` | backendService/memory/vlob.py:232-261 | the answer for a version, for a time and for neither, with Python's negative indexes |
| `VlobComponents.MemoryVlobComponent.PollChanges` | backendService/memory/vlob.py:287-298 | the answer is that of the full log, from the checkpoint the log has reached |
| `VlobComponents.MemoryVlobComponent.GetReencryptionBatch` | backendService/memory/vlob.py:308-323 | the batch, the assertion that a reencryption exists being always true |
| `VlobComponents.MemoryVlobComponent.SaveReencryptionBatch` | backendService/memory/vlob.py:325-342 | total and done, or the unknown version; what precedes it is saved |
| `VlobRuns.EveryRunIsConsistent` | backendService/memory/vlob.py:98-130 | every run of the two components, by any users and with any refusals, keeps them consistent |
| `VlobRuns.EveryRunMatchesMaintenance` | backendService/memory/realm.py:243-298 | at every moment a realm is in maintenance if and only if its reencryption exists, built from the vlobs it has now |
| `VlobRuns.EveryStepOfARun` | backendService/memory/vlob.py:196-285 | what one step does to revisions, logs, versions and blobs |
| `VlobRuns.RevisionCountsStarts` | backendService/memory/realm.py:230-248 | the encryption revision is one more than the number of maintenances started |
| `VlobRuns.VlobGrowsAlongRun` | backendService/memory/vlob.py:283-285 | versions never disappear and never change author or date, across updates and reencryptions |
| `VlobRuns.RunServes` | backendService/memory/vlob.py:308-342 | while maintenance lasts, the reencryption is the one it started with after the accepted saves, in order |
| `VlobRuns.ReencryptionKeepsFirstSaved` | backendService/memory/vlob.py:108-130 | over a whole maintenance within any run, the realm keeps its vlobs, version counts, authors and dates, and every version gets the first blob saved for it since the start |
| `VlobRuns.CutIsUnique` | backendService/memory/vlob.py:247-256 | a time-travel read has one answer at most |
| `VlobRuns.PastIsStable` | backendService/memory/vlob.py:247-261 | a read at a time selects the same version later in the run exactly when the versions added meanwhile are dated after that time |
| `VlobRuns.ClientHoldsCurrentVersions` | backendService/memory/vlob.py:287-298 | a client that polls at any moments of a run holds the current version of every vlob of the realm |
| `VlobPermissions.ChangesArePermitted` | backendService/memory/vlob.py:139-285 | along any run a state changes only by a request whose author has the role for it, in a realm in the right state and revision, on records that allow it; every such request but a poll or a batch does change it |
| `VlobPermissions.UpdateRolesIsPermitted` | backendService/memory/realm.py:155-203 | roles change exactly when owners grant, or managers grant below themselves, to a known user with a fitting profile, in a realm at rest, something new |
| `VlobPermissions.StartIsPermitted` | backendService/memory/realm.py:216-251 | maintenance starts exactly for an owner, at rest, towards the next revision, with a message for every member that is not revoked and nobody else |
| `VlobPermissions.FinishIsPermitted` | backendService/memory/realm.py:266-298 | it ends exactly for an owner, under maintenance of that revision, with nothing left to do |
| `VlobPermissions.CreateVlobIsPermitted` | backendService/memory/vlob.py:210-228 | a vlob is created exactly by an owner, manager or contributor, at rest, in the current revision, under a new identifier |
| `VlobPermissions.UpdateVlobIsPermitted` | backendService/memory/vlob.py:263-285 | a version is added exactly by an owner, manager or contributor, at rest, in the current revision, as the next version and not dated before the last |
| `VlobPermissions.OthersArePermitted` | backendService/memory/vlob.py:183-194 | a batch is taken exactly from an owner, under maintenance of that revision |
| `VlobPermissions.ReadingIsPermitted` | backendService/memory/vlob.py:139-181 | reading is granted exactly to the members, at rest, in the revision they name |
| `VlobPermissions.UpdateWritesItsVersion` | backendService/memory/vlob.py:279-285 | an accepted update names the version after the last one and writes that version, and its log row, and nothing else |
| `VlobPermissions.CreationWritesFirstVersion` | backendService/memory/vlob.py:210-228 | an accepted creation makes a vlob of one version where there was none, and its log row |
| `VlobPermissions.AcceptedVersionsGrow` | backendService/memory/vlob.py:279-280 | two accepted updates of one vlob in a run never name the same version: the later one names a later version |
| `VlobPermissions.EveryVersionWasWritten` | backendService/memory/vlob.py:210-285 | every version of every reached state was written by one creation or update that named it, and bears its author and date |
| `Raid5Xor.XorSplits` | backendService/raid5_blockstore.py:23 | exclusive or acts on low and high bits independently, and low bits stay low |
| `Raid5Xor.XorOfBytes` | backendService/raid5_blockstore.py:20-24 | in both byte orders, exclusive or of the integers is the bytewise one |
| `Raid5Xor.FromThenToBytes` | backendService/raid5_blockstore.py:24 | an integer read from a buffer fits that buffer again |
| `Raid5Xor.MissingBuffer` | backendService/raid5_blockstore.py:43-51 | any one buffer is the exclusive or of the others and of the parity |
| `Raid5Xor.XorBuffers` | backendService/raid5_blockstore.py:18-24 | the accumulating loop over integers computes the bytewise exclusive or of all buffers |
| `Raid5.ChunkLength` | backendService/raid5_blockstore.py:29-31 | the least length with which that many chunks hold the payload |
| `Raid5.UnpackPacked` | backendService/raid5_blockstore.py:34 | the length header reads back |
| `Raid5.JoinOfSlices` | backendService/raid5_blockstore.py:36 | joined slices are the payload |
| `Raid5.SplitBlockInChunks` | backendService/raid5_blockstore.py:27-36 | equal chunks, or a failure exactly for a block of 2^32 bytes or more |
| `Raid5.ChunksToUpload` | backendService/raid5_blockstore.py:126-129 | one chunk for each data store and the checksum for the last one |
| `Raid5.RebuildsBlock` | backendService/raid5_blockstore.py:43-55 | a block comes back from its chunks, all of them or all but any one together with the checksum |
| `Raid5.TwoMissing` | backendService/raid5_blockstore.py:44-45 | with two chunks missing nothing is rebuilt |
| `Raid5.RebuildBlockFromChunks` | backendService/raid5_blockstore.py:43-55 | the code restores the missing chunk and unwraps, with every way to fail |
| `Raid5Read.EveryReadKeepsInv` | backendService/raid5_blockstore.py:66-94 | results, running requests, timeout count and cancellation fit together after every order of answers |
| `Raid5Read.ParityOnlyAfterTimeout` | backendService/raid5_blockstore.py:85-94 | the parity store is asked only once a data store has timed out |
| `Raid5Read.ReadEnds` | backendService/raid5_blockstore.py:66-94 | a read of n data stores never hangs and ends in at most n + 1 answers |
| `Raid5Read.OrderDoesNotMatter` | backendService/raid5_blockstore.py:62-123 | the outcome is a function of what each store would answer, not of the order or of where cancellation strikes |
| `Raid5Read.ReadOutcomes` | backendService/raid5_blockstore.py:96-123 | exactly when the block comes back, exactly when the timeout error is raised, and that a sanity check fails otherwise |
| `Raid5Read.CreationOutcome` | backendService/raid5_blockstore.py:131-166 | in any order a creation succeeds exactly when at most one store is out of reach, and all others were reached |
| `Raid5Read.ReadWithoutStore` | backendService/raid5_blockstore.py:104-117 | as long as that store stays out of reach, reads return the block |
| `Raid5Read.ReadWithLostChunk` | backendService/raid5_blockstore.py:96-109 | once it answers that it has no chunk, reads fail unless it is the parity store |
| `Raid5Read.BlockRead.OnAnswer` | backendService/raid5_blockstore.py:66-89 | how one answer updates the shared variables |
| `Raid5Read.BlockRead.Finish` | backendService/raid5_blockstore.py:96-123 | the checks and the rebuild at the end |
| `SyncScheduler.EveryRunKeepsInv` | guardata/client/sync_monitor.py:142-270 | clock, history and due time fit together after every interleaving of changes and ticks |
| `SyncScheduler.NoChangeIsForgotten` | guardata/client/sync_monitor.py:236-262 | a local change, before or during a sync, stays tracked until a sync of it that started later succeeds |
| `SyncScheduler.NoRemoteChangeIsForgotten` | guardata/client/sync_monitor.py:213-234 | a remote change, loaded or recorded later, waits until a sync of it that began after it ends as done or as not writable |
| `SyncScheduler.RefusedSyncWaits` | guardata/client/sync_monitor.py:219-262 | after a refused sync its entry waits again and the context is due no earlier than the wait asked for: 30 seconds in maintenance, a second for a remote change without read access; a wait that ends at moment zero counts as none |
| `SyncScheduler.TickTakes` | guardata/client/sync_monitor.py:200-246 | a tick takes nothing before the due time, then a remote change whenever there is one, else a local change exactly when one is due, and only what it takes stops waiting |
| `SyncScheduler.WorkIsNotDelayed` | guardata/client/sync_monitor.py:180-204 | past the back-off, a context with something due is itself due |
| `SyncScheduler.ComingDueTimeIsBounded` | guardata/client/sync_monitor.py:180-194 | a due time still to come is at most the larger of the back-off and the earliest tracked due time |
| `SyncScheduler.StepBound` | guardata/client/sync_monitor.py:142-270 | from a state in which the due time is at most the larger of the back-off and the earliest tracked due time, a step keeps it so if and only if it meets its condition |
| `SyncScheduler.RunBound` | guardata/client/sync_monitor.py:142-270 | along a run that holds at every moment if and only if every step meets its condition |
| `SyncScheduler.RemoteChangeBound` | guardata/client/sync_monitor.py:172-175 | after a remote change it holds exactly when no tracked change is overdue beyond the back-off |
| `SyncScheduler.FinishTickBound` | guardata/client/sync_monitor.py:180-194 | at the end of a tick it holds exactly when no remote change is left, or nothing was overdue at the start of the tick beyond the back-off |
| `SyncScheduler.EndSyncBound` | guardata/client/sync_monitor.py:212-270 | however the due time moved during a sync, after it the bound is decided by the end of its tick alone |
| `SyncScheduler.RefusedSyncEndsTick` | guardata/client/sync_monitor.py:251-269 | a refused local sync has put its entry back, so no vacuuming follows and its tick ends at once |
| `SyncScheduler.RemoteChangeMayExceedBound` | guardata/client/sync_monitor.py:172-175 | a loaded state that a remote change takes past the bound |
| `SyncScheduler.FinishedTickMayExceedBound` | guardata/client/sync_monitor.py:181-182 | a run in which only the end of a tick, with a remote change left, takes the idle context past the bound |
| `SyncScheduler.ManyChanges` | guardata/client/sync_monitor.py:42-55 | however often an entry changes it is due a second after the last change and a minute after the first at the latest |
| `SyncScheduler.NeverPostponedForLong` | guardata/client/sync_monitor.py:156-163 | along any run in which an entry stays tracked, however often it changes, it is due within a minute of its first change |
| `SyncScheduler.RefusalRestartsWait` | guardata/client/sync_monitor.py:246-262 | a refused sync tracks its entry again, due a second after the start of the tick and never later than a minute after it |
| `SyncContexts.SyncContext.SetLocalChange` | guardata/client/sync_monitor.py:142-170 | on any confinement graph the recursion ends; it changes exactly what the entry reaches, removes exactly those records, and wakes up exactly when one of the changes asks for it |
| `SyncContexts.DueTimeMovesWithWakeUp` | guardata/client/sync_monitor.py:165-170 | local changes only bring the due time forward, and not without a wake-up |
| `SyncContexts.ExploredIsReached` | guardata/client/sync_monitor.py:148-154 | what the destructive walk touches is exactly what is reached in the graph before the call |
| `SyncContexts.LocalChangeReaches` | guardata/client/sync_monitor.py:142-170 | the tracked entries afterwards are the old ones and all those reached, the records left are those not reached |
| `SyncContexts.SyncContext.SetRemoteChange` | guardata/client/sync_monitor.py:172-175 | the new state |
| `SyncContexts.SyncContext.SetConfinedEntry` | guardata/client/sync_monitor.py:177-178 | exactly one edge is added |
| `SyncContexts.SyncContext.EarliestDue` | guardata/client/sync_monitor.py:185-187 | the least due time among the tracked changes |
| `SyncContexts.SyncContext.ComputeDueTime` | guardata/client/sync_monitor.py:180-194 | the due time for the changes waiting, not before the back-off |
| `SyncContexts.SyncContext.TickBegin` | guardata/client/sync_monitor.py:200-246 | up to the first suspension: an early return, a change taken to sync with remote ones first, or the end of a tick with nothing to sync |
| `SyncContexts.SyncContext.SyncDone` | guardata/client/sync_monitor.py:215-270 | exactly a refused remote sync puts its entry back among the remote changes, exactly a refused local one tracks its entry anew; vacuuming follows only a local sync that leaves no local change, else the tick ends |
| `SyncContexts.SyncContext.TakeResult` | guardata/client/sync_monitor.py:215-262 | exactly which outcomes put the entry back among the remote or the local changes, and the back-off they ask for |
| `SyncContexts.SyncContext.VacuumDone` | guardata/client/sync_monitor.py:264-270 | from the end of the vacuuming to the end of the tick |
| `SyncContexts.SyncContext.EndTick` | guardata/client/sync_monitor.py:269-270 | the due time at the end of a tick |
| `QueryTemplate.PiecesAreSeparated` | backendService/postgresql/utils.py:35 | tokens take the longest name, so no token runs into the next character |
| `QueryTemplate.ReplaceOne` | backendService/postgresql/utils.py:46-47 | replacing the last name left replaces exactly its tokens, though its name may start other names |
| `QueryTemplate.SortDownIs` | backendService/postgresql/utils.py:46 | the names in reverse order, each once |
| `QueryTemplate.SequentialIsSimultaneous` | backendService/postgresql/utils.py:43-49 | one replacement after another over the whole text equals replacing all tokens at once |
| `QueryTemplate.NumberedByFirstUse` | backendService/postgresql/utils.py:34-41 | variables are numbered in the order of their first use |
| `QueryTemplate.TokensGetTheirValues` | backendService/postgresql/utils.py:56-64 | each token becomes the number of the argument that holds its value, and different variables have different numbers |
| `QueryTemplate.PiecesOfText` | backendService/postgresql/utils.py:43-49 | cutting a compiled text into tokens gives back the template with the new names |
| `QueryTemplate.SqueezingKeepsTokens` | backendService/postgresql/utils.py:50 | squeezing white space keeps the tokens and their order |
| `QueryTemplate.SqueezingKeepsWords` | backendService/postgresql/utils.py:50 | squeezing changes white space only: all other characters stay in order, the same ones begin a word, and single blanks between words are all that is left |
| `QueryTemplate.PlaceholdersOfText` | backendService/postgresql/utils.py:43-50 | the placeholders of the text passed on are the numbers of the template's variables, in order |
| `QueryTemplate.Decimal` | backendService/postgresql/utils.py:40 | the digits of a number read back as that number |
| `QueryTemplate.Compile` | backendService/postgresql/utils.py:32-50 | the compiled text, or a refusal exactly when some name is a number |
| `QueryTemplate.Call` | backendService/postgresql/utils.py:56-64 | the squeezed text and the arguments in order, or what is missing and what is unknown |

## Left out

- Cryptography, serialization and compression: signatures and parsers are parameters.
- Websockets, HTTP, cloud storage, SQL connections, e-mail, command line and user interfaces.
- Sending of events outside the conduit, messages to participants, and statistics.
- Devices are kept in one map with their order of creation, where the source nests a map per user; the order within a user is the same.
- Certificate error texts and signature paths: the model keeps the kind of error and the identifiers in it.
- UserComponent.MemoryUserComponent.Bootstrap: taken as one step. In the source the first user is stored and its event sent before the root key is set (backendService/memory/organization.py:76-84), so a second bootstrap with the same token that comes in between is not modelled.
- Deleting an invitation, and several claimers on one token: the conduit model has one greeter task and one claimer task.
- A task of the conduit may be abandoned between two steps; a cancellation delivered while an event is being put on the unbounded channel, after the conduit was updated, is not modelled.
- The running reencryption is held by value in the vlob component, with the vlobs it was built from; in the source it refers to the same vlob objects, which do not change while the realm is in maintenance, as `VlobRuns.EveryStepOfARun` states.
- Listing versions, listing a user's realms and reading role certificates: selections without state.
- The SQL components: the update log is only the reference for polling.
- RAID0 and RAID1 block stores.
- The loading of changes at the start of a sync context: a run starts from what it leaves. A backend that goes offline during a sync, or an unexpected exception, discards the context and ends a run.
- The order in which equal candidates are picked for a sync, or versions listed at the start of a reencryption, is left open.
