# Nyauth: a verified model of its multi-instance state

Nyauth keeps the state that several instances share in PostgreSQL rows and Redis scripts, and
independent workers change it in small transactions. This project models those transactions and the
loops around them in Dafny and proves what they keep, over every run: any number of workers, leases
that expire under a worker that is still busy, crashes, retries, and commits whose outcome the caller
never learns.

Each core has up to three layers, one module per file:

- a model, whose functions are the committed transactions and whose `Step` and `Run` are the runs;
- proofs about every run, by an invariant that each step keeps, among them, for each operation,
  exactly when it succeeds and what it then achieves, said over the events of the run and not over the
  transaction that does it;
- a class (or loop methods) in the form of the original, updated in place, each method proved equal to
  the model's transaction, so that what is proved of the runs is about it.

| core | modules |
|---|---|
| media storage migration | `MediaModel`, `MediaRuns`, `MediaNoLoss`, `MediaProtocol`, `MediaRecovery`, `MediaOutcome`, `MediaStore` |
| mail configuration, circuit breaker, process snapshot | `MailModel`, `MailCircuit`, `MailOpening`, `MailHistory`, `MailVersions`, `MailSnapshot`, `MailStore` |
| device authorization grant (RFC 8628) | `DeviceModel`, `DeviceProofs`, `DevicePace`, `DeviceAnswers`, `DeviceStore` |
| audit outbox and login statistics | `AuditModel`, `AuditProofs`, `AuditClaims`, `AuditStore` |
| email outbox and mail statistics | `EmailModel`, `EmailProofs`, `EmailClaims`, `EmailStore` |
| signing key rotation | `SigningKeys`, `SigningRotation`, `SigningKeyStore` |
| client authorization revision | `ClientRevision`, `ClientUpdates` |
| email template scanner and settings | `TemplateScanner`, `TemplateRendering`, `TemplateSettings`, `Text` |
| audit retention by monthly partitions | `Calendar`, `Retention` |

Conventions. Each committed transaction or script is one serial step. A `Fate` says whether a
transaction committed, committed while its caller was told it failed, or did not commit. Times are
integers on one nondecreasing clock, in microseconds (the stores truncate to them), milliseconds for
Redis. UUIDs, device codes, record versions and key identifiers are fresh. Digests and encryption are
injective, so a digest stands for its text. Every class method's frame and new state are in its
contract; a call that fails leaves the state as it was.

Properties of the code that turned out to hold only under a condition, each with the exact condition
or a run that shows why the condition is there:

- No-loss of the media migration needs source and target at different physical places, which nothing
  in `internal/mediaruntime/store.go` checks; `MediaNoLoss.NoLossExactly` shows the condition exact. It
  also needs that a superseded worker's late write stores what was sent, since no check follows it;
  `MediaNoLoss.LateCorruptionLoses` is a run that loses a blob without that.
- A media migration can still be completed exactly until its cutover
  (`MediaRecovery.CompletableExactly`, `MediaRecovery.RecoverableUntilCutover`). A failure that a
  superseded worker reports after it leaves the migration open for good, although every item is
  completed (`MediaRecovery.LateFailureStrands`; `MediaRecovery.StrandedReachable` is a run).
- A pending device record is findable by its user code unless a code is handed out again while an
  approved record carries it (`DevicePace.ReuseExactly`, over runs, and `DevicePace.ReusedCodeOrphans` from the
  start); and in the one millisecond in which a key's remaining life is zero, an index entry can
  outlive its record (`DevicePace.LastMillisecond`).
- Three transport failures within two minutes may leave the mail circuit closed, because the window
  tumbles (`MailCircuit.ThreeFailuresMayStayClosed`); four never do.
- A day's login counter equals the events it counts exactly when no refresh pruned the day after
  something was counted on it (`AuditProofs.StatsExactly`, `AuditProofs.PrunedDayDiffers`).
- A day's mail counter drifts from the outbox for two reasons: a refresh prunes the day, and deleting a
  user deletes the user's messages. It equals its rows exactly when what was pruned of it is the number
  of messages counted on it that were deleted (`EmailProofs.DailyExactly`); on a day that was never
  pruned, exactly when no such message was ever deleted (`EmailProofs.NeverPrunedExactly`). Runs in which
  each cause alone makes them differ are `EmailProofs.PrunedDayDiffers` and
  `EmailProofs.DeletedDayDiffers`. With the pruned part and the deleted messages added back they are
  always equal (`EmailProofs.DailyCounters`).
- An audit event is delivered exactly when its payload is well formed and some partition takes its time
  (`AuditProofs.NeverStuck`).
- A token signed with a private key that was read before a rotation and used after it, or with a
  lifetime above the configured maximum, can outlive the listing of its key; `SigningKeys.CoveredExactly`
  says when, `SigningKeys.RaceOutlivesKey` is a run.
- Retention by partitions equals a plain delete at every cutoff exactly when every row of a partition
  with a month's name lies before that month's end (`Retention.RetentionExactly`, with
  `Retention.NamesMatter` as a witness).

## Model

| member | source | states |
|---|---|---|
| MediaNoLoss.NoBlobLost | internal/mediaruntime/manager.go:351-427 | for one migration with physically distinct places, every variant readable at its avatar's recorded store at the start is readable there with the same bytes after any run of claims, takeovers, copies, switches, deletes, retries, crashes and uncertain commits, in which the target may store any write wrongly except a superseded worker's |
| MediaNoLoss.NoLossExactly | internal/mediaruntime/store.go:210-323 | every such run over every blob content loses nothing if and only if no item with variants is migrated onto its own physical place, which StartMigration does not exclude |
| MediaNoLoss.LateCorruptionLoses | internal/mediaruntime/manager.go:378-413 | for an avatar with any variants and between any places, a run whose every step but the last is orderly, in which a superseded worker's write is stored wrongly after its successor copied every variant, verified and switched, ends with the wrong bytes at the avatar's recorded store |
| MediaNoLoss.LateHypothesisNeeded | pkg/models/avatar.go:35-42 | so in every started migration with an avatar that has variants, of distinct sizes, no loss fails without that hypothesis |
| MediaNoLoss.SelfMigrationDeletes | internal/mediaruntime/manager.go:378-413 | with source and target at one place, an orderly run, whose writes are all stored as sent, ends with every variant of the avatar deleted |
| MediaNoLoss.RunKeeps | internal/mediaruntime/manager.go:351-427 | the protocol's invariant (rows, blobs, moved items, worker positions, one current claim per item) holds in every state that such a run reaches |
| MediaProtocol.TakeoverFences | internal/mediaruntime/migration.go:37-108 | once another claim of an item committed, even unseen by its caller, the worker that held it before can never again switch or fail it, whatever runs in between |
| MediaProtocol.SupersededForever | internal/mediaruntime/migration.go:84-159 | once a later claim exists, the earlier worker's switch fails and its failure report changes no item, whatever runs in between |
| MediaProtocol.SwitchesAtMostOnce | internal/mediaruntime/migration.go:84-108 | in any run an item goes from copying to switched once or never, even when the avatar row returns to the source |
| MediaProtocol.CountersAlways | internal/mediaruntime/migration.go:84-241 | copied, completed, failed and total equal the item-status counts; a pending or running migration has no failed item; a cut-over one has only completed items |
| MediaProtocol.CutoverStep | internal/mediaruntime/migration.go:161-241 | the active profile changes only when all items are completed, to the target, with the revision raised, the former active profile kept as the previous one and no candidate left; the migration becomes completed only when every instance with a live heartbeat has loaded that revision |
| MediaProtocol.CutoverComplete | internal/mediaruntime/migration.go:161-241 | after the cutover every migrated avatar is recorded at the target and readable there with its original bytes |
| MediaProtocol.CutoverTakesAll | internal/mediaruntime/store.go:300-311 | once the active profile is another one, every avatar that was not deleted and recorded at the profile active at the start is recorded at the migration's target and readable there with its original bytes, and no other avatar's row has changed |
| MediaOutcome.StartsExactly | internal/mediaruntime/store.go:210-299 | a start is accepted if and only if revision and media pause are as its author saw them, no migration is open, and for S3 the target is the candidate, tested within ten minutes and loaded by every live instance, or for the local store some profile is active and no other instance is live |
| MediaOutcome.ReopensExactly | internal/mediaruntime/store.go:325-403 | a failed migration leaves that status if and only if a retry comes while media writes are paused under the named revision, the profiles fit and, for the local store, no other instance is live |
| MediaOutcome.CompletesExactly | internal/mediaruntime/migration.go:172-200 | once cut over, a finalization completes the migration if and only if every instance that reported within fifteen seconds has loaded the new state |
| MediaOutcome.ClaimGrantedExactly | internal/mediaruntime/migration.go:37-82 | an idle worker gets an item if and only if the migration is pending or running, the item is not completed and, if it is being copied, its last claim is at least fifteen minutes old |
| MediaOutcome.AvatarRowsMove | internal/mediaruntime/migration.go:84-108 | an avatar's row moves only by the switch of the worker that holds its item, from the source profile, while it is not deleted, or by another writer |
| MediaOutcome.OneGoodCopy | internal/mediaruntime/manager.go:387-427 | a completed item leaves exactly one copy of each variant: at the target, with the original bytes and the recorded size, and none at the source |
| MediaRecovery.CompletableExactly | internal/mediaruntime/store.go:325-403 | while a migration is pending, running or failed, in any state that an orderly run reaches from a start with all blobs in place, some orderly continuation completes it if and only if the active profile is still the source and the retry's profile checks can be met; otherwise no continuation does |
| MediaRecovery.RecoverableUntilCutover | internal/mediaruntime/migration.go:161-241 | in every reachable state that condition holds if and only if the state row's revision is the one of the start, that is, the cutover has not happened |
| MediaRecovery.LateFailureStrands | internal/mediaruntime/migration.go:129-159 | one failure report after the cutover leaves the migration pending, running or failed for ever, whatever runs afterwards |
| MediaRecovery.StrandedReachable | internal/mediaruntime/manager.go:378-386 | every migration with an item has an orderly run to such a state, with all items completed: a worker fails to resolve a store and stalls before it reports, a second one carries everything to the end, the cutover commits, the report comes in |
| MediaStore.Store.ClaimMigrationItem | internal/mediaruntime/migration.go:37-82 | claims the first eligible row, in the query's order, that no other transaction has locked, and none only if there is none |
| MediaStore.Store.MarkSwitched | internal/mediaruntime/migration.go:84-108 | in place: the avatar row moves to the target and the item is switched, or ownership or claim was lost and nothing changes |
| MediaStore.Store.Complete | internal/mediaruntime/migration.go:110-127 | in place: a switched item completes and the counter is recomputed |
| MediaStore.Store.Fail | internal/mediaruntime/migration.go:129-159 | in place: the migration fails whether or not the fenced item update hit its row |
| MediaStore.Store.Finalize | internal/mediaruntime/migration.go:161-241 | in place: cutover when all is completed, completion when all live instances have loaded it |
| MediaStore.Store.Retry | internal/mediaruntime/store.go:325-403 | in place: failed items become pending again under the same checks as the start |
| MediaStore.CopyAndVerifyVariants | internal/mediaruntime/manager.go:457-496 | whatever each put stores or fails to store: success means every variant is at the target, byte for byte and of the recorded size, and the source as it was, even if both are one store; no other key changes; with distinct sizes it succeeds if and only if every call does, every source object has its size and the target ends up with its bytes |
| MediaStore.DeleteVariants | internal/mediaruntime/manager.go:399-413 | deletes exactly the variants' keys, stopping at the first failure |
| MailCircuit.OpenImpliesThreeFailures | internal/mailruntime/circuit.go:104-143 | the present transport opening has three transport failures of the effective source within two minutes behind it, with no success, reset or reconfiguration between them; the third opened it, and nothing has interrupted since |
| MailCircuit.FourFailuresOpen | internal/mailruntime/circuit.go:104-143 | four uninterrupted transport failures within two minutes leave the circuit open, from every reachable state |
| MailCircuit.ThreeFailuresMayStayClosed | internal/mailruntime/circuit.go:104-143 | a run in which three such failures leave it closed |
| MailOpening.OpenExactly | internal/mailruntime/circuit.go:79-143 | the circuit is open if and only if a delivery of the then effective source opened it and no successful probe and no change of the effective configuration came after; its category and time are that delivery's |
| MailOpening.PermanentOpensExactly | internal/mailruntime/circuit.go:74-102 | it is open for configuration, authentication or TLS if and only if a delivery of the effective source failed for that reason at a closed circuit and nothing has closed it since; it has been open since then |
| MailOpening.ProbeGrantedExactly | internal/mailruntime/circuit.go:163-207 | a probe is granted if and only if it is the effective source's, the circuit is open and thirty seconds have passed since the opening, the last granted probe or the last failed one |
| MailHistory.RowAlwaysOk | internal/mailruntime/store.go:348-585 | the state row's constraints hold in every reachable state: pointers distinct and known, window and circuit consistent |
| MailHistory.ModeActiveIffVersion | internal/mailruntime/store.go:348-585 | mode is active exactly when an active version is set |
| MailHistory.OnlyTestedVersionsRun | internal/mailruntime/store.go:348-436 | every version that is active or previous was first activated within ten minutes after a successful test of that same version |
| MailHistory.CandidateNeverHeld | internal/mailruntime/store.go:173-267 | a candidate has never been active or previous |
| MailHistory.VersionsGrow | internal/mailruntime/store.go:173-267 | a stored version is never changed or removed |
| MailHistory.ProbesApart | internal/mailruntime/circuit.go:163-207 | within one open period any two probe claims are at least thirty seconds apart |
| MailHistory.FirstProbeAfterOpening | internal/mailruntime/circuit.go:163-207 | no probe is claimed sooner than thirty seconds after the opening |
| MailHistory.ProbeOutcomeFenced | internal/mailruntime/circuit.go:209-290 | a probe outcome is accepted if and only if no state change committed since its claim, and then closes the circuit if and only if the probe succeeded |
| MailVersions.AcceptedExactly | internal/mailruntime/store.go:173-585 | a configuration change is accepted if and only if it names the present revision and: the version is new, is the candidate (to test), is the candidate and passed a test in the last ten minutes (to activate), there is a version to go back to, or mail is not disabled and registration closed |
| MailVersions.NoLostUpdate | internal/mailruntime/store.go:704-709 | a change is accepted only while the state is still the one its author saw |
| MailVersions.RevisionMeansChange | internal/mailruntime/circuit.go:58-76 | the revision rises only together with another change, a failed probe's aside |
| MailVersions.ChangeRemembers | internal/mailruntime/store.go:348-585 | what delivers after a change, and what a rollback would bring back: leaving an active version makes it that one, a rollback makes it the one left |
| MailVersions.ReturnsLastActive | internal/mailruntime/store.go:438-510 | whatever ran, the version that a rollback brings back is the last other one that was active |
| MailVersions.VersionsAsCreated | internal/mailruntime/store.go:173-267 | a version is stored if and only if a call created it, with the configuration that this call gave |
| MailVersions.CandidateExactly | internal/mailruntime/store.go:173-436 | a version is the candidate if and only if no other was created and none activated since its creation |
| MailModel.RevisionIdentifiesState | internal/mailruntime/store.go:704-709 | two states of a run with the same revision are the same state |
| MailSnapshot.SnapshotRefinesDatabase | internal/mailruntime/manager.go:145-189 | an installed snapshot is the projection of the database at its own revision, which the database has reached, however reads and commits interleave |
| MailSnapshot.LateRead | internal/mailruntime/store.go:123-171 | reading the version table later than the state row gives the same configuration |
| MailSnapshot.SnapshotNeverRegresses | internal/mailruntime/manager.go:179-189 | a process never goes back to an older revision |
| MailSnapshot.SenderMatchesRevision | internal/mailruntime/manager.go:222-231 | a sender is offered if and only if, at the snapshot's revision, the circuit was closed, mail was not disabled and the effective configuration usable |
| MailSnapshot.SnapshotShows | internal/mailruntime/store.go:123-171 | a snapshot shows the mode, circuit, version and configuration in force at its revision, whether one is set, and whether mail can be sent |
| MailSnapshot.Manager.InstallSnapshot | internal/mailruntime/manager.go:179-189 | replaces the snapshot exactly when the new revision is higher |
| MailSnapshot.Manager.Load | internal/mailruntime/manager.go:145-174 | installs what it built from the row and the versions; a failed read keeps the old snapshot; it succeeds if and only if the configuration could be read and, if there is one, a sender be built |
| MailStore.Store.RecordOutcome | internal/mailruntime/circuit.go:17-158 | in place: the failure window and the circuit after a delivery outcome |
| MailStore.Store.Probe | internal/mailruntime/circuit.go:163-207 | in place: a due probe is claimed and the expected revision returned |
| MailStore.Store.RecordProbe | internal/mailruntime/circuit.go:209-290 | in place: a fenced probe outcome closes or defers |
| MailStore.Store.SaveCandidate | internal/mailruntime/store.go:173-267 | in place: a new version becomes the candidate |
| MailStore.Store.SaveTest | internal/mailruntime/store.go:269-346 | in place: a test of the current candidate is recorded |
| MailStore.Store.ActivateVersion | internal/mailruntime/store.go:348-436 | in place: a freshly tested candidate becomes active, circuit and window are reset |
| MailStore.Store.RollBack | internal/mailruntime/store.go:438-510 | in place: the previous version becomes active again |
| MailStore.Store.DisableMail | internal/mailruntime/store.go:519-585 | in place: mail is disabled, remembering what was active |
| DeviceProofs.AtMostOnce | internal/deviceauthorization/store.go:136-162 | over any run of create, view, poll, approve, deny, consume and expiry, a device code is decided, consumed and redeemed for tokens at most once, and tokens are issued only for consumed records |
| DeviceProofs.SingleRedemption | internal/auth/device_authorization.go:209-270 | a consumed record answers the original request and carries exactly the user, scopes and claims of its one approval |
| DeviceProofs.IndexAlwaysSound | internal/deviceauthorization/store.go:98-162 | an index entry with time left points to a pending record with that digest and expiry, and no poll or decision moves an absolute expiry |
| DeviceAnswers.PollAnsweredExactly | internal/deviceauthorization/store.go:107-134 | a poll of a code with time left is answered by the history: not found for another client, once consumed or told of the denial; the decision if there is one; otherwise slow_down with five seconds more if and only if it comes before the interval last told, or the first one after the creation, is over, and authorization_pending with the present interval if not |
| DeviceAnswers.DeadCodeNotFound | internal/deviceauthorization/store.go:107-112 | a code that was never created, or is past its life, is not found |
| DeviceAnswers.UsedExactly | internal/deviceauthorization/store.go:174-226 | a code is in use if and only if one event created it; request, user code, rounded interval and end of life, ten minutes by default, are that event's |
| DeviceAnswers.LiveAlways | internal/deviceauthorization/store.go:98-162 | while a code has time left its record is there if and only if it was neither consumed nor its denial told |
| DeviceAnswers.DecidedExactly | internal/deviceauthorization/store.go:136-153 | a user's decision takes effect if and only if nobody has decided and there is time left |
| DeviceAnswers.RedeemedExactly | internal/deviceauthorization/store.go:155-162 | a held approval with time left is consumed if and only if nobody has consumed it, and granted if and only if tokens are then issued |
| DeviceAnswers.ViewedExactly | internal/deviceauthorization/store.go:228-276 | a user's page gets the record if and only if it is undecided and has time left |
| DeviceAnswers.AcceptedExactly | internal/deviceauthorization/store.go:98-105 | a creation is accepted if and only if the device code is new and no live entry has its user code; it then can be found |
| DevicePace.PendingAlwaysFindable | internal/deviceauthorization/store.go:98-162 | every pending record has its index entry, provided no user code is handed out again while an approved record carries it |
| DevicePace.ReuseExactly | internal/deviceauthorization/store.go:155-162 | after any run that leaves every pending record findable, and an accepted creation: some continuation without a creation makes a pending record with time left unfindable if and only if an approved record, not expired at the creation, carries the new code |
| DevicePace.ReusedCodeOrphans | internal/deviceauthorization/store.go:155-162 | a run from the start, create, view, approve, create with the same code, poll and consume, that leaves the second record pending and unfindable |
| DevicePace.FindPendingExactly | internal/deviceauthorization/store.go:228-248 | a user code finds a record if and only if it is pending under that code, has time left and has its entry |
| DevicePace.LastMillisecond | internal/deviceauthorization/store.go:124-132 | a run in which a poll in the last millisecond deletes a record and leaves its entry |
| DevicePace.PollingPace | internal/deviceauthorization/store.go:107-134 | a poll answered authorization_pending comes at least the interval told by any earlier answer after that answer, and a pending record's interval is the initial one plus five seconds per slow_down |
| DeviceStore.Store.Create | internal/deviceauthorization/store.go:174-226 | takes the first of eight draws that meets no live key and stores record and entry for it; fails only if none does |
| DeviceStore.Store.FindPendingByUserCode | internal/deviceauthorization/store.go:228-248 | the record that the index and the record table agree on |
| DeviceStore.Store.Poll | internal/deviceauthorization/store.go:314-349 | in place: the poll script's answer and its change of interval, next poll and keys |
| DeviceStore.Store.Decide | internal/deviceauthorization/store.go:265-312 | in place: the decide script for an approval or a denial of a possibly stale copy |
| DeviceStore.Store.ConsumeApproved | internal/deviceauthorization/store.go:351-366 | in place: the consume script |
| DeviceStore.Exchange | internal/auth/device_authorization.go:209-270 | a record reaches the issuer if and only if it is approved for this client, passes the checks and is still there to be consumed; afterwards the code is gone |
| AuditProofs.AtMostOneRow | internal/audit/outbox.go:162-211 | of one event at most one row is ever written, under the event's own time; the event is well formed, and the row has its name and time, its result or else success, its risk level or else low |
| AuditProofs.UsedExactly | internal/audit/outbox.go:70-100 | what counts as enqueued is the body of the first call with that identifier |
| AuditProofs.TableHoldsRows | internal/audit/partition.go:99-110 | the table holds the rows written, and one is missing only if retention has passed its time |
| AuditProofs.DeliveredOrWaiting | internal/audit/outbox.go:102-275 | an enqueued event waits in the outbox or its row has been written, never both and never neither; a processed or cleaned-up event has had its row |
| AuditProofs.Conservation | internal/audit/outbox.go:102-275 | events enqueued = events waiting + rows written |
| AuditProofs.StatsAreTheFold | internal/audit/outbox.go:213-235 | login_stats_daily and what was pruned of it equal, day by day, the number of successful and failed logins written |
| AuditProofs.LoginsAreCounted | internal/audit/outbox.go:213-235 | with what was pruned, a day's counters are the numbers of delivered user.login events of that day whose result is success, by default too, and of user.login_failed events whose result is failure |
| AuditProofs.RefreshKeepsNinetyDays | internal/stats/handler.go:297-323 | a refresh forgets exactly the days before the last ninety |
| AuditProofs.StatsExactly | internal/stats/handler.go:323-325 | a day of login_stats_daily equals that number if and only if no refresh pruned the day after a login was counted on it |
| AuditProofs.RetainedDaysExact | internal/stats/handler.go:297-325 | in particular on every day that all refreshes so far have kept |
| AuditProofs.PrunedDayDiffers | internal/stats/handler.go:323-325 | a run in which a pruned day counts less than its rows |
| AuditProofs.RowsNeverChange | internal/audit/outbox.go:191-198 | a written row is never changed, and one that retention deleted never comes back |
| AuditProofs.RetentionTakes | internal/audit/partition.go:55-119 | retention takes exactly the rows before its cutoff |
| AuditProofs.NeverStuck | internal/audit/outbox.go:102-211 | from every reachable state an event not yet delivered gets its row by one claim whose batch contains it, after the lease or retry time, and one delivery, if and only if its name is not empty, its result and risk level are missing or known words, its other fields typed, and some partition takes its time |
| AuditClaims.EnqueuedTakenExactly | internal/audit/outbox.go:115-132 | whatever else runs, a newly enqueued event can be claimed if and only if its time has come |
| AuditClaims.FailedTakenExactly | internal/audit/outbox.go:115-132 | a failed event can be claimed if and only if its retry time has come |
| AuditClaims.ClaimedTakenExactly | internal/audit/outbox.go:115-132 | an event that some dispatcher has can be claimed if and only if the lease is over |
| AuditClaims.LeaseFences | internal/audit/outbox.go:162-251 | once another dispatcher has claimed an event, the former one's delivery and failure change nothing |
| AuditClaims.CleanedExactly | internal/audit/outbox.go:256-280 | a cleanup removes the rows it names if and only if each was processed before the given time, and no other |
| AuditClaims.RetrySchedule | internal/audit/outbox.go:510-518 | the waits between attempts double from one minute to sixty-four |
| AuditStore.Store.ClaimAuditBatch | internal/audit/outbox.go:102-160 | claims the first `limit` claimable rows in the query's order that no other transaction has locked, each once, and changes no other row |
| AuditStore.Store.DeliverAuditEvent | internal/audit/outbox.go:162-211 | in place: fenced by the lease, row, processed mark and login counters together; without the lease or a partition for the row nothing changes |
| AuditStore.Store.UpdateLoginAggregate | internal/audit/outbox.go:213-235 | in place: the day's counter for a login event, nothing for another |
| AuditStore.Store.MarkAuditEventFailed | internal/audit/outbox.go:237-251 | in place: fenced by the lease, the row waits for its retry |
| AuditStore.Store.DispatchOnce | internal/audit/outbox.go:335-360 | one pass settles every claimed event: processed with its row, or failed with the backed-off retry time; the count is of the deliveries seen to succeed; no other row changes |
| EmailProofs.Conservation | internal/account/outbox.go:29-281 | in every reachable state, summed over all days and with what was pruned, enqueued = sent + rejected + expired + outstanding + deleted while outstanding |
| EmailProofs.TableBalancesExactly | internal/stats/handler.go:329-331 | the table alone balances if and only if as many messages were enqueued on days pruned afterwards as were sent, rejected or expired on days pruned afterwards, or deleted while outstanding |
| EmailProofs.DailyCounters | internal/account/outbox.go:29-281 | each day's counters, with what was pruned of them, are the numbers of messages enqueued, sent, rejected and, over both expiry paths, due on that day, those deleted with their user included; rejected never exceeds failed attempts |
| EmailProofs.DailyExactly | migrations/000001_baseline.up.sql:174-176 | a day's counter in the table is the number of its rows if and only if what was pruned of it is the number of messages counted on it that were deleted with their user |
| EmailProofs.NeverPrunedExactly | internal/registration/store.go:218-224 | on a day that no refresh pruned after a count, if and only if no message counted on it was ever deleted |
| EmailProofs.RetainedDaysExact | internal/stats/handler.go:297-331 | in particular, with the same condition, on every day that all refreshes so far have kept |
| EmailProofs.PrunedDayDiffers | internal/stats/handler.go:329-331 | a run in which a pruned day counts less than its rows |
| EmailProofs.DeletedDayDiffers | internal/user/store.go:554-557 | a run in which a day that was never pruned counts more than its rows, because a user was deleted |
| EmailProofs.CipherGoneIffTerminal | internal/account/outbox.go:62-69 | the ciphertext is empty exactly on sent, rejected and expired rows |
| EmailProofs.TerminalForever | internal/account/outbox.go:178-281 | a sent, rejected or expired row stays as it is or is deleted as it is, a row's creation time never changes, and a deleted message never comes back |
| EmailClaims.EnqueuedTakenExactly | internal/account/outbox.go:128-160 | whatever else runs, a new message can be claimed if and only if its time has come and its deadline has not |
| EmailClaims.FailedTakenExactly | internal/account/outbox.go:128-160 | a message whose attempt failed in time can be claimed if and only if its retry time has come and its deadline has not |
| EmailClaims.ClaimedTakenExactly | internal/account/outbox.go:128-160 | a message that some worker has, crashed or not, can be claimed again if and only if the lease is over and the deadline has not come |
| EmailClaims.LeaseFences | internal/account/outbox.go:178-281 | once another worker has claimed a message, the former one's reports change nothing |
| EmailClaims.ReportedExactly | internal/account/outbox.go:178-281 | what each report of the worker that has the message makes of it; a failure from the deadline on expires it |
| EmailClaims.ExpiredExactly | internal/account/outbox.go:53-75 | the expiry job ends exactly the open messages at or past their deadline |
| EmailClaims.MessagesAsCreated | internal/account/store.go:368-386 | every message was created by one call; it keeps that call's creation time and deadline for good, and its ciphertext until it is sent, rejected or expired |
| EmailClaims.AttemptsCounted | internal/stats/aggregate.go:66-111 | the failed attempts of a minute and of a day are the numbers of failures and rejections reported in it, as long as no refresh forgot it |
| EmailClaims.RefreshKeepsExactly | internal/stats/handler.go:329-334 | a refresh forgets exactly the days before the last ninety and the minutes before two days |
| EmailStore.Store.InsertOutboxEmail | internal/account/store.go:368-386 | in place: a pending row and its day's counter |
| EmailStore.Store.MarkEmailSent | internal/account/outbox.go:178-204 | in place, fenced by the lease: sent, ciphertext gone, counted today |
| EmailStore.Store.MarkEmailFailed | internal/account/outbox.go:206-247 | in place, fenced by the lease: retried, or expired on the day of the deadline; the minute counts a failure |
| EmailStore.Store.MarkEmailRejected | internal/account/outbox.go:249-281 | in place, fenced by the lease: rejected, counted as a failed attempt too, and in the minute |
| EmailStore.Store.AddMailDaily | internal/stats/aggregate.go:66-93 | in place: adds to the UTC day's counters |
| EmailStore.Store.FillBuckets | internal/account/outbox.go:77-91 | one bucket per day of the batch, with the number of messages due on it and one of their deadlines |
| EmailStore.Store.ExpireEmailArtifacts | internal/account/outbox.go:29-106 | the first overdue action tokens that no other transaction has locked are revoked, and the first such messages expired at once and counted by buckets, with the same result as expiring and counting them one after the other; an invalid limit changes nothing |
| EmailStore.Store.EmailOutboxBacklog | internal/account/outbox.go:283-298 | the number of messages still to be sent in time and the age of the oldest |
| SigningKeys.OneKeySigns | internal/auth/jwk.go:57-80 | at most one key holds private material, it is the signing one, and once there is a key there is a signing key |
| SigningRotation.RotatesExactly | internal/auth/jwk.go:168-193 | a rotation keeps the signing key if and only if it was made less than the rotation interval ago; otherwise the new key signs from now on; no verification key whose time is over is left |
| SigningRotation.GeneratesExactly | internal/auth/jwk.go:62-80 | a generation makes the new key the signing one |
| SigningRotation.KeysAsMade | internal/auth/jwk.go:62-80 | every key was made by one call and keeps its start and, while it has one, its secret |
| SigningRotation.DemotedKept | internal/auth/jwk.go:38-55 | a key that stopped signing is kept for the configured maximal lifetime, or thirty-one days, and two minutes |
| SigningKeys.SignedTokensVerify | internal/auth/jwk.go:43-55 | a token signed by the current signing key, with at most the configured lifetime, finds its key listed at every later instant at which it passes the expiry check with its leeway, whatever rotations follow |
| SigningKeys.CoveredExactly | internal/auth/token.go:251-270 | whatever runs from now on, a token finds its key listed while it is accepted if and only if it expires no later than the maximal lifetime after its key stopped signing (after now, if the key still signs), or is no longer accepted |
| SigningKeys.LateTokens | internal/auth/token.go:251-270 | a token signed late, after its key was rotated away, is covered when its lifetime leaves room for the delay |
| SigningKeys.RaceOutlivesKey | internal/auth/token.go:251-270 | a run of read, rotate and late sign whose token is accepted while its key is no longer listed |
| SigningKeyStore.Manager.constructor | internal/auth/jwk.go:38-41 | the default retention stands for a maximal lifetime of 31 days |
| SigningKeyStore.Manager.Configure | internal/auth/jwk.go:43-55 | the retention stands for the configured maximal lifetime; a wrong key length changes nothing |
| SigningKeyStore.Manager.GenerateKey | internal/auth/jwk.go:62-80 | in place: the signing key is demoted and a new one signs |
| SigningKeyStore.Manager.RotateKeys | internal/auth/jwk.go:168-193 | in place: expired keys retire, and a due or missing signing key is replaced |
| SigningKeyStore.Manager.GetPublicKey | internal/auth/token.go:644-668 | finds a key if and only if it is listed |
| ClientRevision.SameRevisionKeeps | internal/client/store.go:251-317 | the same authorization revision at two times: the earlier scopes, grants and claims are subsets of the later ones, redirect set and access policy are equal, whatever updates ran between |
| ClientRevision.SameRevisionExactly | internal/client/store.go:274-283 | the revision is the same at two times if and only if no update in between took anything away |
| ClientRevision.NarrowThenWiden | internal/client/store.go:274-283 | narrowing and widening again gives the same client at another revision |
| ClientUpdates.OthersChangeNothing | internal/client/store.go:264-273 | an update by anybody but the owner or an administrator, or one that is not valid, changes nothing; only a change of owner changes the owner |
| ClientUpdates.FieldHoldsLastAsked | internal/client/service.go:432-480 | over a run a field holds what the last update that counted and asked for it asked for |
| ClientUpdates.FieldStays | internal/client/service.go:432-480 | without such an update it stays as it was |
| ClientUpdates.RevisionsCount | internal/client/store.go:274-283 | the identity revision counts the changes of what the client shows, the authorization revision the updates that took something away |
| ClientUpdates.SameIdentityExactly | internal/client/store.go:274-283 | the identity revision is the same at two times if and only if nothing the client shows changed in between |
| ClientRevision.RechecksPass | internal/auth/device_authorization.go:230-246 | for a grant made at the current revision the scope and claim rechecks pass |
| ClientRevision.IsSubset | internal/client/store.go:306-313 | true if and only if every element of the first is in the second |
| ClientRevision.SameStringSet | internal/client/store.go:315-317 | true if and only if equally long and mutually contained |
| ClientRevision.ScopesAreSubset | internal/auth/token.go:687-698 | true if and only if every requested scope is allowed |
| ClientRevision.ParseAndValidateScopes | internal/auth/handler.go:1047-1067 | accepts if and only if the words are allowed and distinct, and returns them in ascending order |
| ClientRevision.CurrentClaims | internal/auth/handler.go:1106-1128 | the claims that a granted scope releases and the client may have, each once and in their fixed order |
| ClientRevision.Store.UpdateRequest | internal/client/store.go:251-304 | in place: the updated client with its two revisions, or a refusal that changes nothing |
| Text.FieldsJoin | internal/auth/token.go:677-677 | splitting joined words gives the words back |
| TemplateScanner.ParseExactly | internal/account/email_templates.go:468-492 | a text is accepted if and only if it spells a well-formed template, and it spells only one |
| TemplateScanner.RenderEmailTemplateText | internal/account/email_templates.go:468-492 | renders if and only if the text parses and its names are allowed, for every assignment of values; the result is the in-order substitution of the parsed segments, inserted values never rescanned; otherwise it reports the first malformed or unsupported variable |
| TemplateScanner.ProblemExactly | internal/account/email_templates.go:468-492 | nothing is wrong exactly with the texts that spell a template with allowed names, and a text that parses is never called malformed |
| TemplateRendering.RenderBack | internal/account/email_templates.go:468-492 | rendering with every variable standing for itself gives the text back |
| TemplateRendering.MissingIsEmpty | internal/account/email_templates.go:468-492 | a variable without a value renders as if its value were empty |
| TemplateRendering.ProblemOfFirst | internal/account/email_templates.go:468-492 | what comes first is reported first: an unsupported variable, or else what is wrong with the rest |
| TemplateRendering.ProblemOfNone | internal/account/email_templates.go:468-492 | a text that begins with no well-formed variable is malformed unless it has no braces in pairs |
| TemplateScanner.ValidateEmailTemplateText | internal/account/email_templates.go:406-421 | accepts if and only if non-empty, within the limit, free of unsafe characters and renderable |
| TemplateRendering.ValidExactly | internal/account/email_templates.go:406-439 | a text is valid if and only if it is not empty or too long, has only printable characters and permitted line feeds, and spells a template with allowed variables |
| TemplateScanner.ContainsUnsafeEmailText | internal/account/email_templates.go:423-439 | true if and only if some character is a control or bidirectional control, a permitted newline aside |
| TemplateScanner.RequireEmailTemplateVariables | internal/account/email_templates.go:441-466 | accepts if and only if every required name is among those the loose scan collects |
| TemplateScanner.UsedAreParsed | internal/account/email_templates.go:441-466 | on a text that parses, those names are exactly the parsed variables |
| TemplateSettings.NormalizeEmailTemplateSettings | internal/account/email_templates.go:243-289 | accepts if and only if footer, message types and every template are acceptable, and returns every type trimmed, defaults filled in |
| TemplateRendering.NormalExactly | internal/account/email_templates.go:243-289 | normalized settings hold the trimmed footer and, for each message type and nothing else, its texts or the standard ones, trimmed; they are acceptable if and only if they name no other type and footer and contents are within their limits |
| TemplateRendering.ContentExactly | internal/account/email_templates.go:262-284 | the limits of one message: one printable line each for subject, heading and button, a body that shows its required variables, and only the subject may name the site |
| TemplateRendering.TrimExactly | internal/account/email_templates.go:243-289 | trimming takes away all spaces on both sides and nothing else |
| TemplateSettings.NormalizeTwice | internal/account/email_templates.go:243-289 | normalized settings are accepted and normalize to themselves |
| TemplateSettings.RequiredShown | internal/account/email_templates.go:275-277 | the body of a mail built from accepted settings renders for every assignment of values and has each required variable among its parsed ones |
| Calendar.OneMonth | internal/audit/partition.go:161-164 | a time is in at most one month |
| Calendar.YearStart | internal/audit/partition.go:161-164 | the months' starts agree with the closed formula of the Gregorian calendar |
| Calendar.MonthStart | internal/audit/partition.go:161-164 | within a year the months start where the calendar says |
| Calendar.NameRoundTrip | internal/audit/partition.go:166-180 | a month's partition name parses back to the month |
| Calendar.ParseExactly | internal/audit/partition.go:166-180 | a name parses to a month if and only if it is that month's name, so no two months share one |
| Retention.RetentionExactly | internal/audit/partition.go:99-110 | on any partitions that PostgreSQL allows, dropping the expired ones by name and deleting the rest before the cutoff is a plain delete, at every cutoff, if and only if every row of a partition with a month's name lies before that month's end |
| Retention.RetentionIsPlainDelete | internal/audit/partition.go:55-119 | on the partitions that the code creates it leaves exactly the rows from the cutoff on, and such partitions |
| Retention.RetentionLeaves | internal/audit/partition.go:99-119 | with honest names exactly the rows from the cutoff on stay; a month's partition stays if and only if the month ends after the cutoff, and any other partition stays |
| Retention.NamesMatter | internal/audit/partition.go:99-108 | a partition named after one month and holding the next loses rows |
| Retention.NoGap | internal/audit/partition.go:21-49 | consecutive months that are there leave no time between them without a partition |
| Retention.Store.EnsureAuditPartition | internal/audit/partition.go:128-159 | on any partitions that PostgreSQL allows: succeeds if and only if a partition of the month's name is there, whatever its range, or none overlaps the month, and then it is there; rows and other partitions stay |
| Retention.Store.EnsureMonthlyPartitions | internal/audit/partition.go:21-49 | on any partitions that PostgreSQL allows: afterwards the names of the previous, current and coming months are there, covering those months if the names were right before, or nothing changed; it succeeds whenever all partitions are monthly ones |
| Retention.Store.ApplyRetention | internal/audit/partition.go:51-119 | on any partitions that PostgreSQL allows: the partitions named after a month that ended before the cutoff are dropped and the rest deleted up to it, with the numbers of both; the rows are those of a plain delete when every row of a partition with a month's name lies before that month's end |

## Left out

- PostgreSQL isolation anomalies inside one transaction: each committed transaction is one serial step.
- SMTP, S3, local files, HTTP, consent pages, configuration loading and the command line: input and output.
- Encryption, hashing, RSA and random numbers: digests and ciphers are taken as injective, identifiers as fresh.
- MediaNoLoss.NoBlobLost: assumes that only the migration writes avatar rows while it runs (the service control that pauses media writes), no worker left over from an earlier migration, and that a superseded worker's late write is not stored wrongly; MediaNoLoss.LateCorruptionLoses shows the last one is needed.
- MediaRecovery.CompletableExactly: assumes that every source blob is in place at the start and that no other transaction changes the state row, which the candidate and test transactions refuse to do while a migration is open.
- MediaProtocol.CountersAlways: does not say that `completed` is final, because FailItem marks the migration failed without looking at its status.
- Media uploads and the cleanup job beside a migration, the profile candidate and test transactions (the shape of the mail ones), and the instance check before StartMigration.
- MailStore.Store.SaveCandidate: password inheritance and the validation of the settings are not modelled.
- The reason text of an open circuit, and the audit events that the mail transactions enqueue.
- DeviceStore.Exchange: no other request runs between its poll and its consume; the runs of DeviceProofs interleave them freely.
- Device rate limits, the normalization of typed user codes, and records with a status that the code never writes.
- AuditStore.Store.DispatchOnce: no other dispatcher runs during the pass, and its deliveries commit, commit unseen or abort as its parameter says; AuditProofs interleaves any number of dispatchers.
- The other fields of an audit log, the text of delivery errors, direct writes to audit_logs, and outbox identifiers that a caller chooses twice. That dropping a partition deletes just rows before the cutoff is a step of AuditModel by definition; Retention proves it of the partitions.
- The email claim method (the query shape of ClaimAuditBatch; its effect is a step of EmailModel), the email dispatcher loop, and the delivery gate it checks.
- SigningKeys.SignedTokensVerify: all instances are configured with one rotation interval and one maximal lifetime during a run.
- ClientRevision.RechecksPass: the claim recheck is stated for one OAuth policy; a policy change may still withdraw a claim, which the revision does not record.
- ClientRevision.Store.UpdateRequest: the validators of an updated client are a parameter.
- ClientRevision.CurrentClaims: the fallback for a client without a list of claims is not modelled; the column does not allow one.
- SigningKeyStore.Manager.GetPublicKey: the filter on algorithm, type and use and the parsing of the key are not modelled; every key is generated to pass them.
- TemplateScanner.RenderEmailTemplateText: works on characters where the original works on UTF-8 bytes.
- The HTML and text frame around the rendered template parts, the logo and the colors.
- Retention.Store.ApplyRetention: a table name that is taken by something other than a partition is not modelled, and years end at 9999.
- Refresh token families, authorization codes, sessions and their revocation, and the human verification runtime.
