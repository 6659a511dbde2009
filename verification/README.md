# HermesDDNS: a verified model of the server's lifecycle engine

HermesDDNS keeps dynamic DNS names for a fleet of devices. Its server is a set of
services over shared tables, and most of what can go wrong lies between them: a
credential being replaced while requests that use it are in flight, a one-time
token exchanged twice, a host row and a name server that disagree. This project
models those services in Dafny and proves what they keep, in every reachable
state and over every run.

Each service is written twice. A class has the tables as fields and a method for
each call, statement by statement, with the rollback of its transaction
(`RotationService`, `EnrollmentService`, `HostService`, `NetworkService`,
`UpdateEndpoint`). Every such method is proved equal to a function on values
(`RotationTables`, `EnrollmentTables`, `HostTables`, `NetworkTables`), and the
properties are proved of those functions and of runs of them. Clock readings,
random bytes, the request's parameters and the answers to queries without a
defined order are parameters. Each database transaction, and each statement outside
one, is a step; whatever may happen between two steps of one call is an arbitrary
sequence of other steps. Authentication, for instance, is two reads and a usage
stamp that checks nothing, and the row it stamps may have been revoked in between.
`HostTables` has host updates that run whole, for what holds of one update after
another; in the services, the endpoint and `HostStatements` they are statements that
take turns with others and may fail.

- **Credential rotation** (`Rotation*`). `RotationLives` gives each device a life:
  the chain of credentials it has had and the phase of its open rotation.
  `RotationRefinement` proves that every transaction moves exactly one life by one
  edge of that automaton, so the tables of a reachable state always represent
  lives. From this follow the shape of every state and the unreachable errors
  (`RotationProperties`), termination and the invisibility of the reconciler
  (`RotationProgress`), the reconciler under interference (`RotationSweep`),
  requests in flight, evidence and lockout (`RotationRequests`), and rollback
  (`RotationRollback`). Told on the rows and the arguments alone: which keys let a
  device in (`RotationKeys`), what every time in a row is the time of
  (`RotationChronicle`), and which call is answered how (`RotationAnswers`).
- **The update endpoint** (`UpdateEndpoint`, `Endpoint*`)
  puts authentication, the update and the confirmation together, over rotation
  tables, host tables and requests in flight: what confirms a credential is the
  success of a request's own update of DNS.
- **Enrollment and agent identity** (`Enrollment*`): the joint invariant, one
  identity for each token, revocation, and the proof that expiring tokens lazily
  cannot be told from expiring them at once; on the rows and the arguments alone,
  which keys and tokens are taken and how each call is answered (`EnrollmentKeys`),
  and what each time and address in a row is (`EnrollmentChronicle`).
- **Hosts and DNS** (`ManagedNames`, `DnsZone`, `ScriptText`, `Host*`): exactly when
  the host table agrees with the records of a name server that follows RFC 2136,
  sections 2.5.1, 2.5.2 and 3.4.1; first for updates that run one after another
  (`HostTables` to `HostZones`), then statement by statement, with updates
  interleaved and statements failing (`HostStatements`, `HostOrder`, `HostHistory`);
  exactly when the text of a script says what was meant; and what an update publishes
  and answers, told on the request (`HostAnswers`).
- **Network identity** (`AddressScopes`, `Network*`): validation, the NAT state of
  a WAN, exactly when the fleet view and the device view are the same, and what each
  column of a row has to do with the report it comes from (`NetworkRows`).
- **Keys** (`KeyText`): printed keys and the text the parser accepts.

Seven findings are worth a maintainer's attention; the code is modelled as it is.

- `nochg` relies on the host table agreeing with DNS. With updates one after another
  and the zones configured in normal form, it does after every run of the server if
  and only if new domains get no wildcards, which is the default, or no zone that
  names can be split at is another with a single label in front
  (`HostZones.SeededAgreementIff`). From any other tables without hosts it does if
  and only if no two such zones meet, the domain of the outer one having the wildcard
  flag or still able to get it (`HostZones.AgreementIff`). Where zones meet, two
  updates lose the agreement and a third is answered `nochg` wrongly
  (`HostZones.MeetingBreaks`). Listing the outer zone first avoids it, since names
  are then never split at the inner one.
- An update has no transaction around its write to DNS and its save. However updates
  interleave and whatever fails, a host agrees with DNS exactly when the last write to
  DNS for it and the last save of its row are of one update or of updates that asked
  for the same (`HostHistory.HostAgreesIff`). A failed save and two new updates of one
  host at the same time leave them apart (`HostOrder.BothHappen`); the next save that
  directly follows its write puts it right (`HostOrder.GoodHeals`).
- The label of a host may be any text without a dot. The script written for it is read
  back as it was meant if and only if the label has no white space
  (`ScriptText.UpsertReadsBackIff`, `ScriptText.SpacedLabelIsSplit`).
- The fleet view reads its tables in four statements. A device's entry is its own view
  at the last of them if and only if no report of it is accepted after the statement
  for WANs, and the last one between those for snapshots and WANs, if any, writes again
  the row already read (`NetworkReads.FleetEntryIff`); a new device's first report in
  between gives an entry that is not reported and has WANs (`NetworkReads.TornEntry`).
- Splitting a name under a zone fails exactly when a zone listed earlier lies
  above it (`ManagedNames.SplitsJoinIff`).
- Revoking an enrollment reads the clock in two transactions. A token whose time
  runs out in between is revoked instead of reported as expired; that is the only
  difference lazy expiry ever makes (`EnrollmentEager.RevokeAgreesIff`,
  `EnrollmentEager.RevokedInBetween`).
- The key parser is more lenient than the printer. Exactly the texts with a
  lower-case id, no line break in the secret and no surplus bits at its end are
  printed ones (`KeyText.PrintedIff`); an id in capitals is accepted as well
  (`KeyText.CapitalsAreAccepted`).

`dafny verify dfyconfig.toml` checks the whole project.

## Model

| member | source | states |
|---|---|---|
| RotationService.Database.CreateDevice | products/hermes/internal/api/server.go:244-250 | device and first credential are inserted together; a conflict of either leaves the tables as they were |
| RotationService.Database.RequestRotation | products/hermes/internal/credential/service.go:38-90 | result and tables are those of the RequestRotation transaction, which refines one edge of the device's life |
| RotationService.Database.CurrentRotation | products/hermes/internal/credential/service.go:92-105 | an open rotation of the device is returned exactly when there is one |
| RotationService.Database.StageCandidate | products/hermes/internal/credential/service.go:107-164 | result and tables are those of the StageCandidate transaction, malformed and taken key ids included |
| RotationService.Database.StartValidation | products/hermes/internal/credential/service.go:166-212 | result and tables are those of the StartValidation transaction |
| RotationService.Database.ConfirmCredentialUse | products/hermes/internal/credential/service.go:214-284 | both credential rows and the rotation row move together, or a failed update restores the first one |
| RotationService.Database.ReconcileRow | products/hermes/internal/credential/service.go:325-365 | one transaction of the reconciler: re-checks the row, then closes the rotation and revokes the previous credential |
| RotationService.Database.RevokeReplacement | products/hermes/internal/credential/service.go:469-483 | revokes the row only when device and status match, and says whether it did |
| RotationService.Database.Rollback | products/hermes/internal/credential/service.go:377-440 | result and tables are those of the Rollback transaction; a later failure undoes the restored credential |
| RotationService.Database.Authenticate | products/hermes/internal/ddns/service.go:44-77 | device read, credential read in any row order, and the unchecked usage stamp, with any writes of others between them: the first usable row with that key is accepted |
| RotationService.Database.ReconcileExpiredGrace | products/hermes/internal/credential/service.go:311-375 | the loop with its counter, with any transactions of others before each row, is the sweep |
| RotationService.FirstAmong | products/hermes/internal/ddns/service.go:56-73 | the loop accepts the first listed row that qualifies, and none only if none qualifies |
| RotationRefinement.RequestRefines | products/hermes/internal/credential/service.go:38-90 | succeeds exactly for a settled active device and a legal grace; never MultipleActive or NoActiveCredential; moves settled to asked |
| RotationRefinement.StageRefines | products/hermes/internal/credential/service.go:107-164 | exactly when staging succeeds, and that it moves asked to offered |
| RotationRefinement.StartRefines | products/hermes/internal/credential/service.go:166-212 | exactly when validation starts, and that it moves offered to trial |
| RotationRefinement.ConfirmRefines | products/hermes/internal/credential/service.go:214-284 | a confirmation never fails and moves a life exactly when its credential is on trial |
| RotationRefinement.ReconcileRefines | products/hermes/internal/credential/service.go:325-365 | never fails; completes exactly a rotation in grace whose deadline has come, extending the chain |
| RotationRefinement.RollbackRefines | products/hermes/internal/credential/service.go:377-440 | exactly when rollback succeeds, and that it returns the life to where the rotation found it |
| RotationRefinement.StampRefines | products/hermes/internal/ddns/service.go:67-71 | a usage stamp, whatever has become of the row since it was read, moves no life |
| RotationRefinement.CreateDeviceRefines | products/hermes/internal/api/server.go:244-250 | creating a device starts a new life and disturbs no other |
| RotationRefinement.StepRefines | products/hermes/internal/credential/service.go:38-440 | every transaction keeps the tables representing lives |
| RotationRefinement.ReachableRepresents | products/hermes/internal/credential/service.go:38-440 | the tables of every reachable state represent the lives their steps have led to |
| RotationProperties.ReachableShape | products/hermes/internal/credential/service.go:53-84 | at most one open rotation a device, and exactly the live credentials that status calls for, with the rotation's own deadline |
| RotationProperties.ReachableErrors | products/hermes/internal/credential/service.go:63-84 | the errors for several or no active credentials, and the invalid-state exits of confirmation and reconciliation, never occur |
| RotationProperties.ReachableRollback | products/hermes/internal/credential/service.go:377-440 | rollback succeeds if and only if the rotation is before grace, or in grace before its deadline |
| RotationAnswers.CreateDeviceAnswers | products/hermes/internal/api/server.go:244-250 | a device is created exactly if neither its name nor its key id is in use |
| RotationAnswers.RequestAnswers | products/hermes/internal/credential/service.go:38-90 | in every reachable state each error of a request has one reason, told on the rows, and the rest succeeds |
| RotationAnswers.StageAnswers | products/hermes/internal/credential/service.go:107-164 | the same for staging: key id of 16 and hash of 64 hexadecimal digits, the device's own rotation, requested, key id not in use |
| RotationAnswers.StartAnswers | products/hermes/internal/credential/service.go:166-212 | the same for starting the validation: the device's own rotation, staged |
| RotationAnswers.ConfirmAnswers | products/hermes/internal/credential/service.go:214-284 | a confirmation says whether a rotation is being validated with the credential |
| RotationAnswers.ReconcileAnswers | products/hermes/internal/credential/service.go:325-365 | one transaction of the reconciler says whether the rotation is in grace with its deadline reached |
| RotationAnswers.RollbackAnswers | products/hermes/internal/credential/service.go:377-440 | not found for another device's rotation, invalid state for one that is closed or past its deadline, success for the rest |
| RotationProperties.WalkIsChain | products/hermes/internal/credential/service.go:143-158 | following the replaces column from any chain member walks the chain back to its start |
| RotationProperties.CompletedRotationsFormAChain | products/hermes/internal/credential/service.go:338-361 | completed rotations form one unbroken chain of increasing ids from the initial to the settled credential |
| RotationProperties.ReachableChain | products/hermes/internal/credential/service.go:338-361 | the same, for every device of every reachable state |
| RotationProgress.StepLowersRank | products/hermes/internal/credential/service.go:38-440 | a step that changes a rotation strictly lowers the rank of its status and keeps its device and previous credential |
| RotationProgress.RotationsTerminate | products/hermes/internal/credential/service.go:38-440 | over any run the number of changes of a rotation is bounded by its rank; a closed one never changes |
| RotationProgress.AtMostFourAdvances | products/hermes/internal/credential/service.go:38-440 | a requested rotation changes at most four times in any continuation |
| RotationProgress.RevokedForever | products/hermes/internal/credential/service.go:469-483 | a revoked credential row never changes again, but for usage stamps of requests that had read it before |
| RotationProgress.OpenRotationsCanClose | products/hermes/internal/credential/service.go:311-440 | every open rotation can be closed now; in grace by exactly one of rollback and reconciliation |
| RotationProgress.ReconcileInvisible | products/hermes/internal/ddns/service.go:56-64 | reconciling at one time changes no key's matching credentials at any later time |
| RotationProgress.SweepInvisible | products/hermes/internal/credential/service.go:251-273 | any number of reconciliations leave the credentials that authentication may accept at later times the same |
| RotationProgress.GraceIsHonoured | products/hermes/internal/credential/service.go:251-273 | in grace the previous credential works until exactly graceMinutes after the confirmation, the new one throughout |
| RotationChronicle.GraceIsAsAsked | products/hermes/internal/credential/service.go:77-83 | from the request over any run into grace: the credential active at the request lets the device in exactly until the minutes that were asked for have passed since the confirmation |
| RotationChronicle.RequestedRow | products/hermes/internal/credential/service.go:77-83 | a request that succeeds leaves a row with the grace and the moment asked for, about the one active credential of the device |
| RotationChronicle.TimesAreMoments | products/hermes/internal/credential/service.go:77-440 | after every run each time of a rotation is the clock of the step that brought it to the status it is named after, and absent if none has |
| RotationChronicle.ReasonFrom | products/hermes/internal/credential/service.go:433-438 | a rotation keeps the reason it was rolled back with |
| RotationChronicle.PastIsTold | products/hermes/internal/credential/service.go:143-483 | after every run a credential tells when it was activated, confirmed and revoked and by whom it was used last, each by the clock of the step that did it |
| RotationSweep.SweepSucceeds | products/hermes/internal/credential/service.go:311-375 | a sweep never fails, whatever other clients commit between its transactions |
| RotationSweep.SweepCounts | products/hermes/internal/credential/service.go:323-373 | the counter is the number of rotations the sweep itself completed |
| RotationSweep.RunLeavesOverdue | products/hermes/internal/credential/service.go:39-41 | as every grace lasts at least a minute, confirmations from time now on create no rotation overdue at now |
| RotationSweep.SweepClears | products/hermes/internal/credential/service.go:311-375 | what is overdue after a sweep was overdue before it and not in its scan |
| RotationSweep.SweepIsCorrect | products/hermes/internal/credential/service.go:311-375 | in reachable states: no error, the tables of the interleaved run, an exact count, and nothing left overdue at the sweep's start |
| RotationRequests.EstablishedMeansProven | products/hermes/internal/api/server.go:146-168 | a credential that has taken over was accepted for a request that, in flight with it, then updated DNS |
| RotationRequests.ConfirmationNeedsEvidence | products/hermes/internal/api/server.go:146-168 | a rotation in grace or completed was preceded by a successful update of a request in flight with its new credential |
| RotationRequests.StaleConfirmIsNoOp | products/hermes/internal/credential/service.go:214-281 | a late confirmation changes nothing unless its rotation is being validated, and never moves a grace deadline |
| RotationRequests.NoLockout | products/hermes/internal/credential/service.go:377-440 | at every moment each device has a usable credential that is its initial one or has updated DNS |
| RotationRequests.UsableKeyIsAccepted | products/hermes/internal/ddns/service.go:52-76 | a usable credential of an active device is among those its key is accepted with |
| RotationRequests.AuthenticationAdmits | products/hermes/internal/ddns/service.go:44-77 | authentication succeeds exactly when some credential qualifies as it reads them, and accepts such a one, a live row of that device with the hash of the key, whatever others write between its statements |
| RotationKeys.AuthenticationIff | products/hermes/internal/ddns/service.go:44-77 | whatever others write between its statements: a key is accepted exactly if, as the rows are read, one of the active device of that name bears its hash and is active or in grace before its deadline; the row accepted is such a one and is stamped, and every refusal is the same error and writes nothing |
| RotationKeys.KeysStay | products/hermes/internal/credential/service.go:107-440 | no run changes a credential's owner, key id, hash or predecessor |
| RotationKeys.StagedKeyAuthenticates | products/hermes/internal/credential/service.go:107-164 | from staging over any run: the key whose trimmed lower-case hash was staged lets the device in as the candidate exactly while that is active or in its grace |
| RotationKeys.CreatedKeyAuthenticates | products/hermes/internal/api/server.go:244-250 | the key given at creation lets the device in under its name exactly while its first credential is active or in its grace |
| RotationRollback.SinceRun | products/hermes/internal/credential/service.go:107-281 | while a rotation is open the device's rows differ from those at its request only by what the rotation did |
| RotationRollback.RollbackRestores | products/hermes/internal/credential/service.go:377-440 | rollback gives back every credential row, usage stamps aside, plus at most one revoked candidate |
| RotationRollback.RollbackUndoes | products/hermes/internal/credential/service.go:53-84 | from request over any run to rollback: the rows of request time, and a new request picks the same previous credential |
| UpdateEndpoint.Endpoint.Handle | products/hermes/internal/api/server.go:140-170 | authentication, the statements of the update and the confirmation, with others between any two statements; confirmation only after a successful update, its failure not reported |
| EndpointWorld.ConfirmationNeedsUpdate | products/hermes/internal/api/server.go:146-168 | over rotation tables, host tables and requests together: a rotation in grace or completed was preceded by an accepted request whose own host update succeeded with its new credential |
| EndpointWorld.NoLockout | products/hermes/internal/api/server.go:146-168 | every device always has a usable credential that is its initial one or has updated a host |
| EndpointHistory.GapActs | products/hermes/internal/api/server.go:140-170 | events of other requests, authentications and confirmations included, write what they commit and leave a request's flight alone |
| EndpointHistory.RequestIsHistory | products/hermes/internal/api/server.go:140-170 | with any events of other requests and writers between its statements, those of its update included, an accepted request leaves the rotation and host tables that its events leave in the history |
| EndpointAnswers.WrongKeyIsRefused | products/hermes/internal/api/server.go:141-150 | a key that fits no row of the device of that name is answered 401, and the request writes neither hosts nor credentials |
| EndpointAnswers.AnswerIsItsUpdate | products/hermes/internal/api/server.go:152-170 | otherwise the answer is that of the request's own update, each error with its code; 200 carries the address that was asked for |
| EnrollmentService.Database.ExpirePending | products/hermes/internal/enrollment/service.go:385-392 | exactly the overdue pending tokens of the device, or of all devices, become expired |
| EnrollmentService.Database.Create | products/hermes/internal/enrollment/service.go:42-107 | answer and tables are those of Create; a refusal also undoes the expiry |
| EnrollmentService.Database.IssueCredential | products/hermes/internal/agentauth/service.go:48-85 | answer and tables are those of Issue |
| EnrollmentService.Database.Exchange | products/hermes/internal/enrollment/service.go:109-195 | answer and tables are those of Exchange: claimed, issued and linked together, or the claim is put back |
| EnrollmentService.Database.Confirm | products/hermes/internal/enrollment/service.go:197-251 | answer and tables are those of Confirm on the newest matching enrollment |
| EnrollmentService.Database.ListEnrollments | products/hermes/internal/enrollment/service.go:253-266 | the device check, the expiry and the read, with calls of others between them; alone, the device's enrollments after expiry, newest first |
| EnrollmentTables.NewestFirst | products/hermes/internal/enrollment/service.go:262-262 | exactly the given ids, in falling order |
| EnrollmentService.Database.GetEnrollment | products/hermes/internal/enrollment/service.go:268-281 | the expiry and the read, with calls of others between them; alone, the enrollment after expiry, or not found |
| EnrollmentService.Database.RevokeCredential | products/hermes/internal/agentauth/service.go:135-155 | withdraws a live identity of that device, else changes nothing |
| EnrollmentService.Database.Revoke | products/hermes/internal/enrollment/service.go:283-352 | two transactions, each with its own clock reading, and any calls of others between them |
| EnrollmentService.Database.Authenticate | products/hermes/internal/agentauth/service.go:87-125 | credential read, device read and the unchecked usage stamp, with calls of others between them |
| EnrollmentInvariant.ExchangeIs | products/hermes/internal/enrollment/service.go:118-191 | a successful exchange is an issue followed by one write that links the claimed row to the new identity |
| EnrollmentInvariant.FailedExchange | products/hermes/internal/enrollment/service.go:118-191 | a failed exchange changes nothing but, at most, its own overdue token from pending to expired |
| EnrollmentInvariant.CallKeeps | products/hermes/internal/enrollment/service.go:42-352 | every call, manual issuing and revoking included, keeps the joint invariant |
| EnrollmentInvariant.ReachableJoint | products/hermes/internal/enrollment/service.go:50-101 | one open enrollment and one live identity a device at most; issued and completed enrollments link to distinct identities of their device |
| EnrollmentProperties.RowMovesOn | products/hermes/internal/enrollment/service.go:118-191 | no call makes an enrollment pending again, renames it or changes its link |
| EnrollmentProperties.TokenIssuesOnce | products/hermes/internal/enrollment/service.go:152-164 | from any sound state a token is exchanged at most once, never once it has left pending |
| EnrollmentProperties.ReachableTokensIssueOnce | products/hermes/internal/enrollment/service.go:152-164 | over every run each token issues at most one identity |
| EnrollmentProperties.RevokeIsTotal | products/hermes/internal/enrollment/service.go:300-329 | revoking an issued enrollment succeeds and withdraws exactly its identity; invalid state is reported exactly for completed or expired ones |
| EnrollmentProperties.WithdrawnStays | products/hermes/internal/agentauth/service.go:114-122 | a withdrawn identity never changes again, but for usage stamps of requests that had read it before |
| EnrollmentProperties.WithdrawnForever | products/hermes/internal/agentauth/service.go:93-100 | the key of a withdrawn identity authenticates in no continuation, whatever happens during the attempt |
| EnrollmentProperties.RevokeIsFinal | products/hermes/internal/enrollment/service.go:283-352 | after revoking an issued enrollment of a reachable state its key is refused for ever |
| EnrollmentProperties.ClearingClears | products/hermes/internal/enrollment/service.go:64-84 | at most two revocations leave a device without open enrollment and live identity |
| EnrollmentProperties.TwoRevocationsSuffice | products/hermes/internal/enrollment/service.go:42-107 | from every reachable state of an active device they make a new Create succeed, each call with its own clock reading, none below the first |
| EnrollmentProperties.TokenLivesExactly | products/hermes/internal/enrollment/service.go:91-134 | a new token can be exchanged until exactly its lifetime has passed |
| EnrollmentProperties.ExchangedKeyWorks | products/hermes/internal/enrollment/service.go:166-236 | the key an exchange hands out authenticates as the identity it issued, and that identity completes its own enrollment |
| EnrollmentKeys.AuthenticationIff | products/hermes/internal/agentauth/service.go:87-125 | after every run, whatever others do between its statements: a key is accepted as an identity exactly if that, as it is read, is live and bears the key's id and hash, and its device is active when that is read; the row is stamped, and every refusal is the same error |
| EnrollmentKeys.AdmitIff | products/hermes/internal/agentauth/service.go:87-125 | the same asked at one moment: exactly for the identity of an active device that bears the key id and the hash and is not withdrawn, and else with BadAuth |
| EnrollmentKeys.ExchangeIff | products/hermes/internal/enrollment/service.go:109-195 | after every run: a token is exchanged exactly if a pending enrollment in time bears its id and hash, its device is active without a live identity, and the new key's id is new; each refusal says which failed; the rows left are those of the token's device with the key handed out |
| EnrollmentKeys.CreateAnswers | products/hermes/internal/enrollment/service.go:42-107 | each refusal of Create has one reason, told on the rows; else a pending row with the token and the lifetime asked for |
| EnrollmentKeys.IssueAnswers | products/hermes/internal/agentauth/service.go:48-85 | the same for issuing by hand |
| EnrollmentKeys.ConfirmAnswers | products/hermes/internal/enrollment/service.go:197-251 | confirming completes the newest enrollment that names the identity and marks the device seen, or there is none |
| EnrollmentKeys.ReadAnswers | products/hermes/internal/enrollment/service.go:253-299 | reading and revoking answer for a row of that device or for none, an overdue one as expired |
| EnrollmentChronicle.RunPast | products/hermes/internal/enrollment/service.go:118-347 | no run changes an enrollment's device, token, hash or lifetime, and its times and address are those of the calls that issued, completed and revoked it |
| EnrollmentChronicle.PastIsTold | products/hermes/internal/enrollment/service.go:118-347 | so after every run an enrollment tells what has happened to it and nothing else |
| EnrollmentChronicle.RunIdentityPast | products/hermes/internal/agentauth/service.go:48-155 | no run changes an identity's device, key id, hash or activation; withdrawal and use are told by the clocks of the calls that did them |
| EnrollmentChronicle.IdentityPastIsTold | products/hermes/internal/agentauth/service.go:48-155 | so after every run an identity tells when it was issued and withdrawn and by whom it was used last |
| EnrollmentEager.CreateAgrees | products/hermes/internal/enrollment/service.go:42-107 | Create on stored and on aged tables: same answer, same tables once aged |
| EnrollmentEager.ExchangeAgrees | products/hermes/internal/enrollment/service.go:109-195 | the same for Exchange |
| EnrollmentEager.RevokeTxAgreesIff | products/hermes/internal/enrollment/service.go:290-347 | the second transaction of Revoke alone agrees if and only if its token is not overdue |
| EnrollmentEager.RevokeAgreesIff | products/hermes/internal/enrollment/service.go:283-352 | Revoke with both clock readings and anything in between agrees if and only if its token's time has not run out since the first; alone, unless it lies between the readings |
| EnrollmentEager.RevokedInBetween | products/hermes/internal/enrollment/service.go:283-352 | a reachable token, revoked across its deadline, that on time is reported as expired |
| EnrollmentEager.CallAgrees | products/hermes/internal/enrollment/service.go:42-369 | every whole call agrees |
| EnrollmentEager.EagerRunFrom | products/hermes/internal/enrollment/service.go:42-369 | runs from aged tables agree under a rising clock |
| EnrollmentEager.LazyRefinesEager | products/hermes/internal/enrollment/service.go:385-392 | every run of whole calls under a rising clock gives the answers, and aged the tables, of a service that expires every token on time |
| ManagedNames.SplitManagedFqdn | products/hermes/internal/ddns/service.go:186-200 | the loop over the zones computes the split |
| ManagedNames.SplitThenJoin | products/hermes/internal/ddns/service.go:186-200 | a split gives a label without dots and a managed zone that join to the normalised name |
| ManagedNames.JoinIsInjective | products/hermes/internal/model/host.go:22-27 | no two labels and zones join to one name |
| ManagedNames.CatchesIff | products/hermes/internal/ddns/service.go:188-197 | a zone catches a joined name exactly when it is its zone or lies above it, and then only its zone leaves a label |
| ManagedNames.SplitsJoinIff | products/hermes/internal/ddns/service.go:188-197 | splitting inverts joining if and only if no zone listed earlier lies above the joined one |
| ManagedNames.SplittableIff | products/hermes/internal/ddns/service.go:188-197 | names under a zone can be split at it if and only if no zone listed before it lies above it |
| ManagedNames.SplitInvertsJoin | products/hermes/internal/ddns/service.go:186-200 | with no zone nested in another the split is the one label and managed zone that join to the name |
| ManagedNames.OrderDoesNotMatter | products/hermes/internal/ddns/service.go:188-200 | then the order of the zones, and repeats, do not matter |
| ManagedNames.JoinSplitsIff | products/hermes/internal/ddns/service.go:186-200 | a joined name splits again if and only if normalising leaves it as it is |
| ManagedNames.CompanionMeetsIff | products/hermes/internal/dns/updater.go:38-48 | a wildcard companion is a host's own name exactly for the host "*" of the zone directly below |
| DnsZone.BuildUpsertScript | products/hermes/internal/dns/updater.go:26-51 | the loops append exactly the script: deletions of both address types or of the one other type, then the additions |
| DnsZone.DeletionsMean | products/hermes/internal/dns/updater.go:38-43 | the delete commands remove exactly the named types at the named names |
| DnsZone.AdditionsMean | products/hermes/internal/dns/updater.go:45-48 | the add commands put one record at each name |
| DnsZone.UpsertMeans | products/hermes/internal/dns/updater.go:26-51 | the server accepts every script; afterwards each name has exactly the one record, none of the other family, and nothing else changed |
| ScriptText.ReadsBackIff | products/hermes/internal/dns/updater.go:26-51 | a script written out and read line by line gives the same commands if and only if every text in it is a word |
| ScriptText.UpsertReadsBackIff | products/hermes/internal/dns/updater.go:26-51 | the script of a host does if and only if its label has no white space |
| ScriptText.SpacedLabelIsSplit | products/hermes/internal/ddns/service.go:186-200 | a request can ask for a label with a space in every zone that names can be split at |
| HostService.NameServer.Upsert | products/hermes/internal/dns/updater.go:22-24 | the script is executed as a whole, or a refusal leaves the records alone |
| HostService.Service.Update | products/hermes/internal/ddns/service.go:79-175 | statement by statement, others changing the tables in any way before each and each database statement possibly failing: result, tables, log and records are those of the statements in turn |
| HostService.Service.FindOrCreateDomain | products/hermes/internal/ddns/service.go:102-112 | the first two statements: the enabled domain row, or a new one with the defaults, or a failure or conflict that ends the update |
| HostService.Service.UpdateIn | products/hermes/internal/ddns/service.go:114-149 | the statements from the host row on: ownership, auto-creation and the nochg shortcut |
| HostService.Service.Publish | products/hermes/internal/ddns/service.go:151-174 | DNS, then the save; a refused script changes only the log, a failed save leaves the new record beside the old row |
| HostService.Service.SaveRow | products/hermes/internal/ddns/service.go:156-174 | insert or update of the host row; nothing changes when the database fails or the name is taken |
| HostService.Service.EnsureDomains | products/hermes/internal/database/database.go:43-60 | at start-up every configured name gets a row with the defaults unless it has one |
| HostService.Service.CreateDomain | products/hermes/internal/api/server.go:188-214 | a name the validator takes, a TTL in range or none, only configured domains, only once |
| HostSoundness.StepSound | products/hermes/internal/ddns/service.go:79-175 | every step, under every configuration, keeps domain and host names unique, ids fresh and hosts in zones that names can be split at |
| HostSoundness.ReachableSound | products/hermes/internal/ddns/service.go:102-140 | so after every run of every configuration, from any sound tables without hosts |
| HostSoundness.SeedIsFree | products/hermes/internal/database/database.go:43-60 | start-up adds exactly the configured names, new ones with the default flag, and keeps the rest |
| HostAgreement.HostsKeepApart | products/hermes/internal/model/host.go:22-27 | where no managed zones meet, no two host rows share a DNS name, companions included |
| HostAgreement.UpsertServes | products/hermes/internal/ddns/service.go:151-154 | after an upsert the host's names hold its record only, and other records are untouched |
| HostAgreement.UpsertIsIdle | products/hermes/internal/ddns/service.go:142-149 | where the names already hold the record an upsert changes nothing |
| HostAgreement.UpdateAgrees | products/hermes/internal/ddns/service.go:79-175 | where no managed zones meet, an update keeps host table and records in agreement |
| HostAgreement.StepMeets | products/hermes/internal/ddns/service.go:102-112 | no step makes two zones meet that did not |
| HostAgreement.ReachableAgrees | products/hermes/internal/ddns/service.go:142-174 | where no managed zones meet at the start: after every run, over any initial records, each host's names hold its record and no other address record, and still no zones meet |
| HostAgreement.UnnestedAgrees | products/hermes/internal/ddns/service.go:142-174 | in particular when no managed zone is nested in another |
| HostZones.MeetingBreaks | products/hermes/internal/ddns/service.go:142-174 | where two managed zones meet in tables without hosts, two updates lose the agreement, over any records and under any policy, after creating at most one domain that start-up has not; the first device is then told nochg though its upsert would have changed DNS |
| HostZones.AgreementIff | products/hermes/internal/ddns/service.go:142-174 | from any sound tables without hosts: table and records agree after every run if and only if no two managed zones meet in them |
| HostZones.NoChangeIff | products/hermes/internal/ddns/service.go:142-149 | from the same: every nochg answer leaves the records as the upsert would, if and only if no two managed zones meet |
| HostZones.SeededAgreementIff | products/hermes/cmd/hermesddns/main.go:24-31 | from the tables the server starts with, zones in normal form: both hold if and only if new domains get no wildcards or no zone that names can be split at is another with one label in front |
| HostZones.SeededCreatesNothing | products/hermes/internal/api/server.go:203-212 | there the endpoint that creates domains answers with an error and changes nothing, whatever has been updated |
| ManagedNames.ConfiguredIff | products/hermes/internal/config/config.go:69-78 | a configured entry is in normal form unless it still ends in a dot |
| HostProperties.ReachableStorageNeverFails | products/hermes/internal/ddns/service.go:102-112 | no reachable update fails to insert a domain row |
| HostProperties.NoChangeIsExact | products/hermes/internal/ddns/service.go:142-149 | where no managed zones meet, answering nochg leaves the records exactly as performing the upsert would |
| HostProperties.RepeatIsNoChange | products/hermes/internal/ddns/service.go:142-174 | repeating a successful update is answered nochg with the same address, name server or not |
| HostProperties.UpdateGrows | products/hermes/internal/ddns/service.go:114-174 | rows are never removed and keep their owner, name and TTL |
| HostProperties.UpdateOwn | products/hermes/internal/ddns/service.go:136-174 | an update writes only rows of its device and the address records of one of them; a failed one writes neither |
| HostProperties.OthersAreSafe | products/hermes/internal/ddns/service.go:136-140 | another device's update leaves a host's row and, where no managed zones meet, all records at its names as they are |
| HostProperties.UnmanagedRecordsStay | products/hermes/internal/dns/updater.go:32-43 | records outside the hosts' address records are, after any run, what they were at the start |
| HostZones.CompanionIsLost | products/hermes/internal/dns/updater.go:45-48 | publishing for the host "*" of the zone one label below overwrites the companion of a wildcard host |
| HostStatements.ReachableIsConsistent | products/hermes/internal/ddns/service.go:101-169 | with statements of any updates interleaved and failing: names stay unique, what an update has read stays true but for addresses, and no host row is without a write to DNS |
| HostStatements.ReachableTracks | products/hermes/internal/ddns/service.go:151-169 | however updates interleave and whatever fails, the names of each host hold exactly the record last written for it |
| HostStatements.AgreesIffSaved | products/hermes/internal/ddns/service.go:151-169 | so table and DNS agree if and only if each host's row is what was last written for it |
| HostStatements.NoChangeIsRightIff | products/hermes/internal/ddns/service.go:142-149 | a nochg answer leaves DNS as the upsert would if and only if the host's row is what was last written for it |
| HostOrder.AloneIsUpdate | products/hermes/internal/ddns/service.go:79-175 | the statements of an update that nothing comes between make up the whole update, answer, tables, records and log |
| HostOrder.OrderlyAgrees | products/hermes/internal/ddns/service.go:151-169 | where saves succeed and nobody writes to DNS for a host while another update of it has a save to come, every host agrees whenever no save of it is to come |
| HostOrder.SaveAgreesIff | products/hermes/internal/ddns/service.go:156-166 | a save leaves its host in agreement if and only if its update was the last to write for the host, or wrote the same |
| HostOrder.GoodHeals | products/hermes/internal/ddns/service.go:151-166 | whatever went wrong before, a save right after its own write to DNS leaves the host in agreement |
| HostOrder.RaceBreaks | products/hermes/internal/ddns/service.go:114-166 | two new updates of one host, from any sound tables without hosts: the row is that of the first to save and the record that of the second to write |
| HostOrder.LostSaveBreaks | products/hermes/internal/ddns/service.go:151-166 | from the same tables, a run whose last save fails: the record is new and the row is not |
| HostOrder.BothHappen | products/hermes/internal/ddns/service.go:114-166 | both happen to the updates of one device, in any zone that names can be split at, seeded or not |
| HostOrder.WholeIsUpdate | products/hermes/internal/ddns/service.go:79-175 | the statements of an update with nobody else at work do what the whole update does |
| HostHistory.HostAgreesIff | products/hermes/internal/ddns/service.go:151-169 | in every history a host agrees with DNS if and only if its last write to DNS and its last save asked for the same record |
| HostHistory.AgreementIsHistory | products/hermes/internal/ddns/service.go:151-169 | so the whole table agrees with DNS if and only if that holds of every host |
| HostHistory.RowIsLastSave | products/hermes/internal/ddns/service.go:156-166 | a host's row holds the record of the last update that saved it |
| HostHistory.TurnsAreHistory | products/hermes/internal/ddns/service.go:101-169 | an update whose statements take turns with those of others is one request of such a history |
| HostProperties.NewHost | products/hermes/internal/ddns/service.go:177-184 | a new row belongs to the asking device and has a name that device may create |
| HostProperties.RunAuthorises | products/hermes/internal/ddns/service.go:177-184 | in every state each host carries a name its device was allowed to create |
| HostAnswers.NamesAreAuthorised | products/hermes/internal/ddns/service.go:177-184 | after every run each host's label is its device's name or begins with it and a hyphen, up to capitals and surrounding space, unless the policy is any |
| HostAnswers.AuthorisesIff | products/hermes/internal/ddns/service.go:177-184 | that is exactly what the code tests |
| HostAnswers.UpdateSucceeds | products/hermes/internal/ddns/service.go:87-174 | a successful update publishes, at the name that was asked for and with its wildcard, the address that was asked for, or the caller's where none was, and stores and answers it |
| Text.TrimSpaceCuts | products/hermes/internal/ddns/service.go:87-88 | the requested address is read without the white space around it, and nothing is left exactly of text that is all white space |
| HostAnswers.TriedSucceeds | products/hermes/internal/ddns/service.go:87-174 | the same statement by statement, whatever others do and whatever fails; the record as long as others do not write to DNS |
| HostAnswers.UpdateAnswers | products/hermes/internal/ddns/service.go:79-154 | after every run: NotFqdn for a name that is not managed, BadIp for an address that cannot be read, BadAuth for a name the device may not write, nochg for the address its host has, else good or a DNS error |
| HostAnswers.FailedStatement | products/hermes/internal/ddns/service.go:101-120 | a statement the database does not carry out ends the update with an error and writes nothing |
| HostAnswers.CreateDomainAnswers | products/hermes/internal/api/server.go:194-214 | each refusal of a new domain has one reason; else its row has the TTL asked for or the default |
| HostAnswers.ReachableTtls | products/hermes/internal/ddns/service.go:122-131 | after every run each host has the TTL of its domain |
| HostAnswers.UpdateAddsDomain | products/hermes/internal/ddns/service.go:104-107 | a domain that an update adds is the zone of its name, with the defaults |
| HostAnswers.UpdateLogs | products/hermes/internal/ddns/service.go:202-220 | every update is logged once, with the device, the row, the operation and the answer, but for a database failure |
| AddressScopes.PrefixIsRange | products/hermes/internal/networkcontext/service.go:443-457 | an aligned prefix contains exactly one range of addresses |
| AddressScopes.MaskedContains | products/hermes/internal/networkcontext/service.go:376-384 | masking a prefix does not change what it contains |
| AddressScopes.PublicIsTheRest | products/hermes/internal/networkcontext/service.go:431-441 | public addresses are exactly those outside every reserved range |
| AddressScopes.ScopesAreRanges | products/hermes/internal/networkcontext/service.go:398-416 | the scopes are disjoint unions of ranges that cover every address |
| NetworkProperties.FaultIff | products/hermes/internal/networkcontext/service.go:316-388 | validation refuses exactly the reports that are not acceptable: distinct names, one default route at most, parsable addresses, gateways in their networks |
| NetworkProperties.BuiltIsSound | products/hermes/internal/networkcontext/service.go:256-314 | the NAT state is a function of scope and match, and each flag is raised exactly when that state says so; the row's own address and its gateway are the reported ones |
| NetworkInvariant.StepKeeps | products/hermes/internal/networkcontext/service.go:92-165 | every report keeps the tables' invariant |
| NetworkInvariant.ReachableSane | products/hermes/internal/networkcontext/service.go:92-165 | names and default routes unique within a device, child rows only beside a snapshot, every row sound |
| NetworkInvariant.OneServerPeer | products/hermes/internal/networkcontext/service.go:260-265 | at most one WAN of a device has its public address from the server's peer |
| NetworkInvariant.OthersRowsStay | products/hermes/internal/networkcontext/service.go:122-155 | a report leaves the rows of every other device as they are |
| NetworkViews.SameAnswer | products/hermes/internal/networkcontext/service.go:191-191 | WANs of different names have only one ordered listing |
| NetworkViews.FleetIsPerDevice | products/hermes/internal/networkcontext/service.go:173-254 | with all queries at one moment each fleet entry is the device's own view: same snapshot, same WANs in the same order, networks as permutations in name order |
| NetworkReads.FleetEntryIff | products/hermes/internal/networkcontext/service.go:203-254 | with any reports between the four queries, an entry is the device's own view at the last one if and only if none of the device is accepted after the query for WANs and the last one between those for snapshots and WANs, if any, writes again the row already read |
| NetworkReads.SteadyIffQuiet | products/hermes/internal/networkcontext/service.go:208-219 | under a clock that rises between reports: if and only if no report of the device is accepted after the query for snapshots |
| NetworkReads.ContextReadIff | products/hermes/internal/networkcontext/service.go:173-199 | a device's own view, read query by query, is the view at its last query under the same condition |
| NetworkReads.UnreportedIsBare | products/hermes/internal/networkcontext/service.go:173-199 | a device's own view, whatever is reported meanwhile, is that device's, not found exactly without one, and never has WANs or networks without a snapshot |
| NetworkReads.RunEffect | products/hermes/internal/networkcontext/service.go:92-165 | a run leaves a device's view as it is without an accepted report of it; else the last one's snapshot row is there and only WANs made since |
| NetworkReads.TornEntry | products/hermes/internal/networkcontext/service.go:208-216 | a new device whose first report comes between the query for snapshots and that for WANs has an entry that is not reported and has WANs |
| NetworkService.Service.ValidateInput | products/hermes/internal/networkcontext/service.go:316-388 | the loops with the seen-set and the counter find the first fault |
| NetworkService.Service.Report | products/hermes/internal/networkcontext/service.go:87-171 | an accepted report replaces the device's rows and answers with them in order; a refused one changes nothing |
| NetworkService.Service.GetContext | products/hermes/internal/networkcontext/service.go:173-199 | device row, snapshot row after any steps of others, and any answers to the two queries for child rows; without a snapshot it stops there |
| NetworkService.Service.ListContexts | products/hermes/internal/networkcontext/service.go:203-254 | the grouping loops give each device its entry, from any answers to the four queries |
| NetworkService.Service.GroupByDevice | products/hermes/internal/networkcontext/service.go:225-232 | appending row by row to a map groups the rows of each device in their order |
| NetworkService.SortedFits | products/hermes/internal/networkcontext/service.go:468-476 | sorting gives an ordered permutation |
| NetworkService.ReportReadsBack | products/hermes/internal/networkcontext/service.go:157-170 | the WANs a report answers with are those Context reads back, in the same order |
| NetworkRows.ReportIsStored | products/hermes/internal/networkcontext/service.go:92-155 | from every reachable state an accepted report leaves one row for each of its WANs and networks and no other, every column taken from its own input; the observed address is the agent's, else the server's for a default route if public; scope and NAT state are those of the WAN's own address |
| NetworkRows.ReportIff | products/hermes/internal/networkcontext/service.go:87-101 | a report is taken exactly if its device is active and it is fine, told on addresses, prefixes and names alone |
| NetworkRows.FaultIsTrue | products/hermes/internal/networkcontext/service.go:316-388 | whatever error a report is refused with is true of it |
| NetworkRows.ListedInOrder | products/hermes/internal/networkcontext/service.go:187-196 | after every run the WANs of a device are listed with its default route first and the others by name, its networks by name |
| NetworkRows.ScopeOfText | products/hermes/internal/networkcontext/service.go:398-416 | blank text has no known scope, unreadable text is special, the rest goes by its address |
| KeyText.HexRoundTrip | products/hermes/internal/security/apikey.go:55-55 | decoding hexadecimal text gives back the bytes |
| KeyText.Base64RoundTrip | products/hermes/internal/security/apikey.go:56-56 | decoding unpadded base64url text gives back the bytes |
| KeyText.ParseIff | products/hermes/internal/security/apikey.go:74-95 | the parser accepts exactly prefix, id of 16 hexadecimal digits, dot and a secret of 32 bytes, and returns the id in lower case |
| KeyText.PrintedIff | products/hermes/internal/security/apikey.go:43-95 | an accepted text is a printed one if and only if its id is in lower case and its secret has 43 characters, no line break and no surplus bits |
| KeyText.CapitalsAreAccepted | products/hermes/internal/security/apikey.go:83-89 | an id spelled in capitals is accepted as the same id, and printed for no key |
| KeyText.VerifyIff | products/hermes/internal/security/apikey.go:102-112 | verification is equality of hash texts, which is how the other modules see a presented key |
| KeyText.KeyRoundTrip | products/hermes/internal/security/apikey.go:43-95 | a printed key parses to exactly its id and verifies against its stored hash |
| KeyText.PrintedShape | products/hermes/internal/security/apikey.go:43-63 | a key of each kind is its name, 16 digits for the id, a dot and 43 symbols for the secret; its hash is that of the whole text |
| KeyText.PrefixesKeepApart | products/hermes/internal/security/apikey.go:13-17 | no text parses under two of the three prefixes |
| KeyText.PrintingIsInjective | products/hermes/internal/security/apikey.go:55-57 | different ids or secrets are printed differently |

## Left out

- EnrollmentService.Database.Confirm: the newest enrollment by creation time is the one with the greatest id, as ids grow with creation.
- EnrollmentService.Database.ListEnrollments: newest first by id, which grows with creation, for creation time.
- EnrollmentEager.LazyRefinesEager: whole calls read the clock once and run undisturbed; Revoke with two readings is the exact case of EnrollmentEager.RevokeAgreesIff.
- HostStatements.ReachableTracks: a refused script leaves the records alone; one that is executed and whose answer is lost appears as a write followed by a failed save, with another answer.
- HostService.Service.CreateDomain: the validator's rule for domain names is a parameter; the one in use refuses names of a single label, so such a zone only gets its row at start-up or from an update.
- HostService.Service.EnsureDomains: a database error, which keeps the server from starting.
- UpdateEndpoint.Endpoint.Handle: header parsing and the choice of the caller's address behind a proxy.
- NetworkViews.FleetIsPerDevice: all queries at one moment; NetworkReads.FleetEntryIff is the case of different moments.
- NetworkService.SortedFits: the library's sorting algorithm; an insertion sort on sequences stands for it, and in-place exchange is not modelled.
- HostZones.AgreementIff, like HostZones.SeededAgreementIff: assumes that the address parser knows two different addresses.
- NetworkInvariant.ReachableSane: the address parser is a parameter of which only one thing is assumed, that empty text is not an address.
- KeyText.KeyRoundTrip: SHA-256 is any function and the comparison is not timed; nothing cryptographic is claimed. In the other modules a presented key is its hash text.
- Text is ASCII: trimming and case conversion of other characters, and Unicode in general.
- DnsZone.UpsertMeans: a name server takes the commands of a script, not its text; ScriptText.UpsertReadsBackIff says when that is the same. Quotes, comments and escapes, CNAME, SOA and TSIG rules and the nsupdate process are not modelled.
- Textual IP addresses and prefixes: parsing and canonical printing are parameters.
- The devices' last-seen columns in the update path, log messages beyond operation and response, and `updated_at` columns.
- A change of configuration between starts, but for the flags of domain rows it leaves behind.
- Telemetry, HTTP routing and binding, admin authentication, GORM and SQLite themselves, migrations and the reconciler's ticker.
