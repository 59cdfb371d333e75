# StumpfWorks Identity: a verified model of its client updates and its server state

StumpfWorks Identity schedules signed software updates for its badge clients. The
server keeps a job table with an audit log; one worker per client polls for a job,
downloads, verifies and stages the package, asks to start, replaces several files,
checks the services, rolls back on failure and reports a result. Four kinds of
durable evidence on the client (the worker journal, the transaction record, the
rollback snapshot, the update state with the installed-version floor) make this
survive a crash at any point, lost and repeated messages, and an administrator who
cancels at the same time. This project models that protocol down to single disk
operations and proves what it promises, and does the same for the device
credentials, the OpenID codes and sessions, the database import and the rate
limiter next to it.

## How it is built

* **Disk layer** (`Disks`, `Restore`, `Rollback`, `Transaction`, `Install`, `Packages`,
  `Staging`, `Acceptance`, `Signing`, `Atomicity`). Imperative methods on a class `Disk`. Before
  every operation a method asks the disk for that operation's fate: done, I/O error, or
  the process is dead. The contract of a `Crash` outcome therefore speaks about every
  point between two operations; completed operations persist in order.
* **Server layer** (`Jobs`, `JobHistory`). The job table's two transactions as methods
  of a class, and the audit log replayed as a path of the lifecycle.
* **Protocol** (`Protocol`, `Agreement`, `Truth`, `VersionFloor`, `Safety`). The whole
  system as steps over client records, job table, network, lock owner and two arbitrary
  clocks; an inductive invariant; theorems about every state of every run.
* **Programs** (`Moves`, `World`, `UpdateWorker`, `Operation`). The HTTP handlers and
  `RunWorker` as imperative methods that call the methods of the two layers above. Each
  durable write extends a ghost trace, and every method proves that what it appended are
  protocol steps. So the theorems hold of the programs, not only of the step system:
  `Operation.Operate` says so for any number of worker runs, interrupted anywhere. A disk
  may be calm, its services healthy and the network quiet; then the programs also make
  progress: `UpdateWorker.RunWorker` installs what can be installed and reports what is owed.
* **Versions** (`Strings`, `Versions`, `Spelling`, `SemanticVersions`), **device credentials**
  (`Credentials`, `CredentialHistory`, `CredentialTimes`), **OpenID** (`Oidc`, `OidcHistory`), **import**
  (`Framing`, `Import`, `Reconcile`) and **limiter** (`Limiter`) stand by themselves.

SHA-256 is an injective constructor for files and a parameter for the package digest and
the import, injective where a lemma says so. Ed25519, JSON, ZIP, the row encoder, the PKCE
challenge and time layouts are parameters. A method that needs time, a network answer or the outcome of a service
command takes it as an input or chooses it arbitrarily.

## What was found

* Two distinct versions can each be reported newer than the other:
  `EachNewerThanTheOther` gives `1.0.0-7` and `1.0.0-07`. `AntisymmetryExact` says when:
  exactly if the first differing pre-release identifiers read as one number. The
  relation "older" is transitive on all valid versions all the same, and that is what
  the update floor rests on.
* Versions with different core numbers can be reported equal: `HugeCoresCollide` gives
  two of twenty digits. `EqualVerdict` says when: exactly if the pre-release parts are
  equal and differing core numbers are both at or above 2^63 - 1.
* The order differs from section 11 of Semantic Versioning 2.0.0: it reports `1.0.0--5`
  older than `1.0.0-4` (`NegativeIdentifierDeviates`). `FollowsSection11` says when, for
  core numbers that fit: exactly if the first differing identifiers deviate, which needs
  a minus sign followed by digits, or digits above 2^63 - 1, and is told from their text.
* A snapshot can be restored exactly when every original file had a permission bit set:
  `SnapshotUsableExactly`. `ZeroModeSnapshot` takes one of an original of mode 0000 and
  then sees it refused.
* Creating an enrollment token reports success without inserting anything exactly when
  the client is not enabled and the token id is taken:
  `CredentialStore.CreateEnrollmentToken`, and `ReportedButNotStored` at one input.
* Go's JSON is not injective over `[]any` (bytes print like their base64 text, the integer
  1 like the float 1), so a digest tells rows apart only as far as their encodings differ.
  `DigestDetermines` states exactly that and `TypedDigestDetermines` when it means equal
  rows; import and reconciliation are stated by encodings and assume nothing of the encoder.

## Model

| member | source | states |
|---|---|---|
| Versions.ValidIdentifiers | internal/clientupdate/verify.go:269-281 | the identifier loops accept exactly the dot-separated lists of nonempty identifiers |
| Versions.ValidVersion | internal/clientupdate/verify.go:236-267 | accepts exactly the strings with three plain numbers and well-formed pre-release and build parts |
| Versions.CompareVersions | internal/clientupdate/verify.go:283-349 | the loops compute the recursive verdict: core numbers first, then the first differing identifier, then length |
| Versions.EqualVerdict | internal/clientupdate/verify.go:283-349 | the verdict is 0 exactly for equal pre-release parts and core numbers as written that are equal or both at or above 2^63 - 1; for numbers that fit, exactly for equal numbers; whatever the v prefix and build metadata |
| Versions.HugeCoresCollide | internal/clientupdate/verify.go:284-310 | two valid versions with different core numbers and verdict 0 both ways |
| Versions.OlderIsTransitive | internal/clientupdate/verify.go:283-349 | "older" and "older or same" are transitive on all valid versions |
| Versions.AntisymmetryExact | internal/clientupdate/verify.go:319-349 | swapping the arguments negates the verdict if and only if the versions are not ambiguous; ambiguous ones are each newer than the other |
| Versions.EachNewerThanTheOther | internal/clientupdate/verify.go:319-341 | a concrete pair of valid versions that are each newer than the other |
| Versions.CanonicalOrderIsTotal | internal/clientupdate/verify.go:283-349 | without leading zeros and "-0" the verdict is antisymmetric, and one of two versions is older exactly unless they are the same in the sense of EqualVerdict |
| Spelling.WrittenIsValid | internal/clientupdate/verify.go:236-281 | whatever is written as an optional v, three plain numbers, and dot-separated words after a hyphen and a plus sign is valid, and is read as those numbers and pre-release words |
| Spelling.ValidExactly | internal/clientupdate/verify.go:236-281 | and nothing else is valid |
| Spelling.DecorationIsIgnored | internal/clientupdate/verify.go:283-318 | versions that differ only in the v and the build metadata get the same verdict against every other |
| Spelling.PrefixIsIgnored | internal/clientupdate/verify.go:236-237 | a v in front of a version changes neither validity nor any verdict |
| Spelling.MetadataIsIgnored | internal/clientupdate/verify.go:238-244 | and neither does build metadata behind it |
| SemanticVersions.ParseSemanticVersion | internal/server/clients.go:209-238 | the parser's loop and branches compute the server's reading of a string |
| SemanticVersions.CompareSemanticVersions | internal/server/clients.go:240-286 | the comparison loop computes the server's verdict |
| SemanticVersions.ServerParsesValid | internal/server/clients.go:209-238 | a version the client calls valid is parsed by the server if and only if its core numbers fit a machine integer |
| SemanticVersions.ImplementationsAgree | internal/server/clients.go:240-286 | both implementations give the same verdict on all valid versions whose core numbers fit |
| SemanticVersions.FollowsSection11 | internal/clientupdate/verify.go:283-349 | for core numbers that fit: older is precedence as section 11 of Semantic Versioning 2.0.0 defines it, if and only if the versions do not deviate, which is told from the text of the first differing identifiers |
| SemanticVersions.PlainIdsAgree | internal/clientupdate/verify.go:319-341 | without a minus sign before digits and without digits above 2^63 - 1 nothing deviates |
| SemanticVersions.NegativeIdentifierDeviates | internal/clientupdate/verify.go:323-341 | two valid versions on which the code and that section disagree |
| Components.TableIsGood | internal/clientupdate/stage.go:23-36 | the twelve components have pairwise different targets |
| Components.FileNamesDistinct | internal/clientupdate/stage.go:23-36 | target, install replacement and restore replacement names of all components are pairwise different files |
| Disks.CopyAndVerify | internal/clientupdate/restore.go:100-124 | creates exclusively and ends with exactly the expected content and mode or without success, touching one path, at every crash point |
| Restore.VerifyRollback | internal/clientupdate/acceptance.go:64-124 | success implies a complete manifest with sound records; without faults it succeeds if and only if the rollback is valid |
| Restore.PrepareAll | internal/clientupdate/restore.go:33-42 | every recorded original is copied and checked before any target changes |
| Restore.ApplyRecord | internal/clientupdate/restore.go:49-69 | one target becomes as recorded or stays as it was; a leftover replacement is cleared |
| Restore.ApplyAll | internal/clientupdate/restore.go:43-69 | each target is as recorded or untouched at every crash point; a failure without faults strictly reduces the leftovers |
| Restore.RestoreRollback | internal/clientupdate/restore.go:16-71 | from a valid rollback each target is restored or untouched, all of them on success and on a calm disk without leftovers, nothing else changes; an invalid rollback changes nothing |
| Restore.RestoreKeepsValid | internal/clientupdate/restore.go:20-71 | however a restore ends, the rollback stays valid |
| Restore.RestoreRepeatedly | internal/clientupdate/restore.go:43-69 | after any crashes, leftovers + 1 fault-free attempts restore every target |
| Rollback.SnapshotComponent | internal/clientupdate/rollback.go:52-90 | copies one original and records its size, digest and permission bits, or its absence |
| Rollback.SnapshotAll | internal/clientupdate/rollback.go:50-90 | the records are those of the plan's targets, each backed up; no target changes |
| Rollback.CreateRollback | internal/clientupdate/rollback.go:32-129 | the directory appears only complete, by one rename, as a snapshot of exactly the targets before; targets are never touched |
| Transaction.WriteUpdateState | internal/clientupdate/state.go:22-42 | the state is replaced by a valid one or unchanged; when it succeeds without faults |
| Transaction.WriteUpdateTransaction | internal/clientupdate/transaction.go:23-43 | the record is the new one on success and the old or new one otherwise |
| Transaction.RestoreOfSnapshot | internal/clientupdate/restore.go:20-71 | restoring a snapshot brings back every target's content and permission bits or absence, and keeps the snapshot |
| Transaction.CheckRecords | internal/clientupdate/transaction.go:93-111 | the manifest belongs to the transaction and names known components once |
| Transaction.RecoverPendingUpdate | internal/clientupdate/transaction.go:83-123 | a pending installation stays pending, or every target is back, the state says failed and the record is gone; success means no record is left; without faults it succeeds when there is no record, or a managed one with a usable rollback, healthy services and no leftovers |
| Install.RequiresLightDMMaintenance | internal/clientupdate/install.go:113-120 | true exactly if some component restarts LightDM |
| Install.ValidateStagedPayload | internal/clientupdate/install.go:145-172 | succeeds only if every staged payload is a known component's and matches its plan entry, and without faults exactly then |
| Install.ApplyComponent | internal/clientupdate/install.go:80-97 | one target holds the signed content and mode, or is untouched |
| Install.ApplyComponents | internal/clientupdate/install.go:79-98 | on success every target is new; at every crash point targets stay replaceable and nothing else changed |
| Install.ApplyRelease | internal/clientupdate/install.go:64-110 | the commit happens only with every target new and the success state written |
| Install.RollBackInstall | internal/clientupdate/install.go:174-190 | the record stays, or it is gone with every target back and the state failed; never reports success |
| Install.InstallStaged | internal/clientupdate/install.go:45-111 | success means the whole release applied and committed; failure means untouched, pending or rolled back; a crash leaves one of these four; greeter components without a maintenance window change nothing; without faults, with healthy services, good payloads, room for the snapshot and no leftovers it succeeds |
| Install.InstallRecorded | internal/clientupdate/install.go:64-111 | once on record, the record disappears only with all targets new or all targets back |
| Atomicity.SnapshotUsableExactly | internal/clientupdate/acceptance.go:64-124 | a snapshot is restorable if and only if every original had a permission bit |
| Atomicity.ZeroModeSnapshot | internal/clientupdate/acceptance.go:97-105 | the snapshot of an original without permission bits is taken and then refused |
| Atomicity.RollbackRoundTrip | internal/clientupdate/rollback.go:32-129 | snapshot, any change of any targets, successful restore: every target as it was |
| Atomicity.SnapshotOverwriteRestore | internal/clientupdate/restore.go:16-71 | the same with the methods: create, overwrite any subset with regular files, restore |
| Atomicity.AllOrNothing | internal/clientupdate/transaction.go:83-123 | for every crash point of an installation and of any number of recoveries: with no record left the targets are all as before or all new; other paths are untouched |
| Atomicity.InstallAndRecover | internal/clientupdate/install.go:45-111 | the same for the methods, run one after the other |
| Protocol.DirIsManaged | internal/clientupdate/worker.go:304-306 | every job has its own rollback directory, where the recovery accepts it |
| Packages.ValidateManifest | internal/clientupdate/verify.go:189-234 | accepts exactly the valid manifests, expecting the platform's own architecture when none is given |
| Packages.IndexEntries | internal/clientupdate/verify.go:94-107 | accepts exactly archives of safe, uniquely named entries and indexes them |
| Packages.CheckPayloads | internal/clientupdate/verify.go:135-157 | every listed payload has the size and digest of its manifest entry, and the listed names are exactly those |
| Packages.TotalIsLength | internal/clientupdate/verify.go:135-157 | the total held against 256 MiB is the length of all payloads together |
| Packages.SortStringsSorts | internal/clientupdate/verify.go:163-165 | the reported names are in byte order |
| Packages.VerifyPackage | internal/clientupdate/verify.go:94-165 | succeeds if and only if the archive's entries are acceptable, said of the entries alone: safe unique names, a manifest entry and a signature entry that verifies for it under the trusted key, a manifest valid for this client, and exactly its payloads with their sizes and digests; and returns that manifest |
| Packages.AcceptableExactly | internal/clientupdate/verify.go:94-165 | the indexed checks of the code decide exactly that condition on the entries |
| Staging.StageEntry | internal/clientupdate/stage.go:126-152 | writes one payload whose content is the archive's, checked against the manifest |
| Staging.VerifyAndStage | internal/clientupdate/stage.go:52-124 | a published stage holds a payload for every manifest file and the plan derived from it, and the manifest is signed in the archive; nothing outside the stage changes |
| Acceptance.VerifyReleaseAcceptance | internal/clientupdate/acceptance.go:18-62 | success means every file is installed as signed and the rollback covers exactly them; without faults the converse holds too |
| Acceptance.AppliedIsAccepted | internal/clientupdate/acceptance.go:18-124 | an applied release with usable originals is what VerifyReleaseAcceptance accepts |
| Acceptance.UpdateEndToEnd | internal/clientupdate/acceptance.go:18-124 | what verifies, stages and installs, through whatever faults, is then what the check accepts for the manifest that was signed in the archive, and a fault-free check says so |
| Signing.DeliveryIsUnique | internal/clientupdate/worker.go:211-219 | with an injective hash a job's digest determines the package and the manifest in it |
| Signing.NewIsSigned | internal/clientupdate/stage.go:52-124 | a plan in place that was derived from the ordered package is that package's signed manifest installed file by file |
| Signing.BackIsSigned | internal/clientupdate/stage.go:52-124 | and such a plan undone is every target of that manifest as before |
| Jobs.JobStore.ChangeUpdateJob | internal/database/client_update_jobs.go:130-170 | succeeds exactly for a legal, available or repeated change; a repeat changes nothing; otherwise row and audit change together |
| Jobs.JobStore.CreateUpdateJob | internal/database/client_update_jobs.go:81-128 | succeeds exactly for an admissible request that repeats an existing one or whose client has no open job other than one overdue; expires that one and inserts; a repeat changes nothing; failure leaves the tables alone |
| JobHistory.NextKeepsGood | internal/database/client_update_jobs.go:81-170 | every transaction keeps: audit replay gives each job's state, at most one open job per client |
| JobHistory.AuditReplays | internal/database/client_update_jobs.go:16-23 | in every reachable table each job's events replay to its state and no client has two open jobs |
| JobHistory.ReplayIsPath | internal/clientupdate/job.go:41-60 | an audit trail that replays is one path of the lifecycle from scheduled |
| JobHistory.DispatchIsExclusive | internal/clientupdate/job.go:41-60 | a job that is or was dispatched was so inside its window, and never cancelled or expired |
| JobHistory.RowsAreStable | internal/database/client_update_jobs.go:130-170 | rows are never deleted, keep their request, and only make legal moves |
| JobHistory.FinishedForGood | internal/database/client_update_jobs.go:137-149 | a final state never changes again |
| JobHistory.JobsMove | internal/clientupdate/job.go:41-60 | in every reachable table: a scheduled job can be cancelled always, dispatched to an available client exactly inside its window, expired exactly from its end on; a dispatched one takes exactly the two results; a finished one only its own |
| JobHistory.WindowsBounded | internal/clientupdate/job.go:28-36 | every stored window is at most a day long, had not passed at creation and opens within ninety days of it |
| Agreement.StepAgrees | internal/clientupdate/worker.go:94-282 | every step keeps client records, messages under way and server table in agreement |
| Truth.StepHonest | internal/clientupdate/worker.go:109-141 | every step keeps the disk explained by the journal, plans derived from the package the job names, and all recorded results supported |
| Truth.InstallHonest | internal/clientupdate/worker.go:265-267 | installation, ended or interrupted anywhere, keeps that |
| Truth.RestoreHonest | internal/clientupdate/worker.go:109-135 | and so does an interrupted restore of an executing job |
| VersionFloor.StepVersions | internal/clientupdate/worker.go:337-363 | every step keeps the version invariant and never lowers the floor |
| VersionFloor.SyncedAfter | internal/clientupdate/worker.go:351-361 | a saved state version is the installed version from then on |
| Safety.Invariant | internal/clientupdate/worker.go:94-282 | the invariant holds in every state of every run |
| Safety.AtMostOnce | internal/clientupdate/worker.go:259-267 | no job's installation begins twice in any run |
| Safety.JournalMatchesServer | internal/clientupdate/worker.go:311-333 | an executing journal means the job is dispatched; a finished one, dispatched or settled with exactly that result |
| Safety.ResultNeverConflicts | internal/server/client_update_jobs.go:227-245 | the journalled result, sent first or again, is never a conflict |
| Safety.RecordedResultStands | internal/database/client_update_jobs.go:137-149 | every recorded result is the server's final word or can only become it; one result per job |
| Safety.InstalledWasDispatched | internal/server/client_update_jobs.go:212-226 | an installed job was dispatched with the server's clock inside its window, and its audit shows neither cancellation nor expiry |
| Safety.CancelledNeverInstalled | internal/server/client_update_jobs.go:122-147 | a job cancelled or expired at any moment of a run is installed at no moment of it |
| Safety.ResultsAreTruthful | internal/clientupdate/worker.go:268-281 | succeeded was recorded only with every file of the signed manifest in the package the job names in place, content and mode; failed only with every target of it as before the job, or without having begun; nothing pending; a reported rollback was valid |
| Safety.InstalledWasOrdered | internal/clientupdate/verify.go:117-122 | whatever began to install has a plan derived from a signed manifest in the package of a job |
| Safety.NothingUnsignedBegins | internal/clientupdate/verify.go:117-122 | with a key under which nothing verifies, no installation begins in any run |
| Safety.RecordsAreOfRows | internal/clientupdate/worker.go:311-333 | every recorded result is of a row of the server's table: the same client, release, package and window |
| Safety.PendingMeansExecuting | internal/clientupdate/worker.go:272-276 | a pending transaction belongs to the executing journal and its snapshot is complete |
| Safety.FloorNeverDecreases | internal/clientupdate/worker.go:335-363 | the saved floor never decreases in any run |
| Safety.SuccessesIncrease | internal/clientupdate/worker.go:311-323 | releases recorded as succeeded are strictly increasing |
| World.Machine.ScheduleClientUpdate | internal/server/client_update_jobs.go:86-121 | a protocol step; succeeds exactly for an approved release, a window its maintenance needs allow, an available client and a repeated or free slot, and stores exactly that request |
| World.Machine.CancelClientUpdate | internal/server/client_update_jobs.go:122-147 | a protocol step; succeeds exactly for a scheduled job, or again for a cancelled one, which then is cancelled |
| World.Machine.PollClientUpdate | internal/server/client_update_jobs.go:166-195 | expiring and offering jobs are protocol steps; an offer is the client's own approved job, dispatched or inside its window; and the only open job of a listed client is offered whenever it is such a job |
| World.Machine.StartClientUpdate | internal/server/client_update_jobs.go:212-226 | a protocol step, whether or not the answer arrives; granted exactly to an available client for its approved job that is scheduled inside its window or dispatched already, which then is dispatched |
| World.Machine.FinishClientUpdate | internal/server/client_update_jobs.go:227-245 | a protocol step, whether or not the answer arrives; acknowledged exactly for a dispatched job or the same result again, and then the server has that result |
| World.Machine.DownloadClientUpdate | internal/server/client_update_jobs.go:246-259 | a package is served exactly for the available client's open, approved job before its expiry |
| UpdateWorker.RecoverFirst | internal/clientupdate/worker.go:94-96 | recovery under the lock is a protocol step |
| UpdateWorker.UsableRollback | internal/clientupdate/worker.go:307-310 | reports a rollback only if it is valid and for the job's release, and on a calm disk exactly then |
| UpdateWorker.RestoreSnapshot | internal/clientupdate/worker.go:109-135 | the restore of an executing job is what the protocol says, at every crash point; on a calm disk it succeeds without a snapshot, or with a usable one, healthy services and no leftovers |
| UpdateWorker.InstalledVersion | internal/clientupdate/worker.go:337-363 | returns the newest of build, floor and successful state, and leaves nothing newer unsaved; on a calm disk with readable versions it succeeds |
| UpdateWorker.StagePackage | internal/clientupdate/worker.go:223-241 | a staged plan was derived from the signed manifest in the package the job names, for the job's release, newer than the installed version; a calm disk, a free stage and a package that suits the client are enough |
| UpdateWorker.PrepareJob | internal/clientupdate/worker.go:182-258 | an installation begins only with the client's own clock inside the window, before and after preparation, and with bytes that hash to the digest the job names; outside the window or without a package the job is forgotten; where package, clocks, server and disk are as they should be, the job is installed and reported |
| UpdateWorker.BeginExecution | internal/clientupdate/worker.go:259-264 | the executing journal is durable before the installation |
| UpdateWorker.InstallJob | internal/clientupdate/worker.go:265-267 | the installation, ended or interrupted, is a protocol step; success puts every target of the plan in place, and comes whenever disk, services and stage allow it |
| UpdateWorker.ExecuteJob | internal/clientupdate/worker.go:259-282 | on a calm disk a granted job's installation begins and has a result or stays on record; if nothing stands against it, the release is installed as signed, is the floor and is reported, and the job is forgotten |
| UpdateWorker.StartJob | internal/clientupdate/worker.go:245-258 | the same whenever the server grants the start; a refused job is forgotten without an installation |
| UpdateWorker.RecordInstalled | internal/clientupdate/worker.go:268-281 | a result is journalled only with no transaction pending, and on a calm disk exactly then |
| UpdateWorker.FinishWorker | internal/clientupdate/worker.go:311-333 | saving the floor, reporting and forgetting are protocol steps; a job is forgotten only after acknowledgement, with the server at that result and the floor at a succeeded release; with server and disk available this always succeeds |
| UpdateWorker.RunWorker | internal/clientupdate/worker.go:51-282 | however a run ends, all it did is a sequence of protocol steps, and the lock is free. On a quiet network with a calm disk and healthy services: a journalled or offered job that both clocks, the server and the disk allow ends succeeded at the server, installed as signed, as the floor, begun once and without a journal; and a result that is owed, journalled, interrupted or dispatched without a trace, is delivered |
| Operation.Operate | internal/clientupdate/worker.go:49-282 | after any number of worker runs, recoveries and server events: at most once, dispatched in its window, results truthful, of the server's rows and never contradicted, journal and server in agreement, releases increasing, floor not lowered, nothing pending without an executing journal |
| Credentials.CredentialStore.CreateEnrollmentToken | internal/database/client_device_authentication.go:102-122 | when it succeeds, that it then inserts that token unused exactly if the client is enabled, and that no token lives longer than a day |
| Credentials.CredentialStore.ValidEnrollmentToken | internal/database/client_device_authentication.go:124-131 | foretells Enroll's verdict at that time for every certificate of the client that nothing else stands against |
| Credentials.ReportedButNotStored | internal/database/client_device_authentication.go:111-121 | a disabled client with a taken token id: creation succeeds and stores nothing |
| CredentialHistory.SpentForGood | internal/database/client_device_authentication.go:142-148 | a consumed token is usable for nobody at any later state |
| Credentials.CredentialStore.Enroll | internal/database/client_device_authentication.go:133-163 | succeeds exactly under its guards, using up one unused token of the client that has not passed its end and staging one credential over those that waited ten minutes; otherwise nothing changes |
| Credentials.CredentialStore.StageRenewal | internal/database/client_device_authentication.go:69-100 | succeeds exactly under its guards and stages a renewal of the active credential over those that waited ten minutes, changing no other row |
| Credentials.CredentialStore.Activate | internal/database/client_device_authentication.go:198-242 | succeeds exactly for a pending credential less than ten minutes old with an unexpired certificate whose predecessor is active, or that has none and no active one exists; only these two rows change |
| Credentials.CredentialStore.Revoke | internal/database/client_device_authentication.go:244-264 | succeeds exactly for the client's active credential and changes only that row |
| CredentialHistory.StepKeeps | internal/database/client_device_authentication.go:69-264 | every transaction keeps uniqueness, links, chains and balances |
| CredentialHistory.OneActiveOnePending | internal/database/client_device_authentication.go:85-91 | every reachable state has at most one active and one pending credential per client, without the unique indexes |
| CredentialHistory.PendingRenewsActiveOrRevoked | internal/database/client_device_authentication.go:69-100 | a waiting renewal's predecessor is the same client's and active or revoked |
| CredentialHistory.AncestorsSuperseded | internal/database/client_device_authentication.go:212-220 | every proper ancestor of an active credential exists, is superseded and was active once |
| CredentialHistory.RevokedRenewalNeverActivates | internal/database/client_device_authentication.go:212-219 | a renewal of a revoked credential is never active, now or at any later state |
| CredentialHistory.RowsProgress | internal/database/client_device_authentication.go:198-264 | rows stay, keep certificate, predecessor and creation time, and keep a final status |
| CredentialHistory.Conservation | internal/database/client_device_authentication.go:133-264 | enrolled minus revoked events is the number of active credentials; consumed tokens, credentials without predecessor and staged enrollments are equally many |
| CredentialTimes.TokenOpens | internal/database/client_device_authentication.go:133-163 | in every run: a token created and not enrolled with since opens an enrollment exactly for its own enabled client, up to and including its end, with an unopposed certificate |
| CredentialTimes.UnopposedExactly | internal/database/client_device_authentication.go:149-156 | a certificate is unopposed exactly if its id, fingerprint and serial are new and every waiting credential of its client has waited ten minutes |
| CredentialTimes.ActivationWindow | internal/database/client_device_authentication.go:207-226 | in every run: a credential still waiting can be activated exactly by its own client, within ten minutes of its staging, before its certificate ends, in its predecessor's or nobody's place |
| CredentialTimes.WaitingEnds | internal/database/client_device_authentication.go:69-242 | a credential stops waiting only by an activation in that time, or when another is staged ten minutes after it or later |
| CredentialTimes.RenewalWindow | internal/database/client_device_authentication.go:78-84 | in every run: a credential can be renewed exactly while it is active, for its own client and before its certificate ends |
| CredentialTimes.CertificatesDiffer | internal/database/client_device_authentication.go:92-94 | no two credentials of a reachable state share a fingerprint or a serial number |
| Oidc.OidcStore.DropExpired | internal/database/oidc_audit.go:35-37 | removes only expired codes, all of them up to a hundred |
| Oidc.OidcStore.CreateCode | internal/database/oidc_audit.go:26-58 | inserts a fresh code with its three events for a known client and user, or changes nothing; a free hash is always accepted, a taken one only if its code had expired; no unexpired code is lost |
| Oidc.OidcStore.CodeForExchange | internal/database/oidc_audit.go:60-62 | finds exactly an unconsumed, unexpired code of that client and redirect |
| Oidc.OidcStore.ConsumeWithSession | internal/database/oidc_sessions.go:21-61 | select and guarded update: granted exactly for a redeemable code and an unused ticket; the code is used up, the new session is found by its token until its end, every other session is found exactly as before, and only sessions a week past their end are dropped |
| Oidc.OidcStore.ConsumeWithSessionReturning | internal/database/postgres_oidc_sessions.go:20-48 | single guarded update: the same verdict, the same tables and the same sessions found |
| Oidc.OidcStore.ConsumeDenial | internal/database/oidc_audit.go:64-95 | consumes a redeemable code with a denial, exactly then |
| Oidc.OidcStore.Token | internal/oidc/provider.go:271-346 | an exchange opens a session exactly if verifier, user and directory pass, leaving all other sessions signed in, denies a redeemable code with the first failing reason, and changes nothing otherwise |
| Oidc.OidcStore.SessionByTokenHash | internal/database/oidc_sessions.go:63-65 | finds a session exactly if a live one exists |
| Oidc.OidcStore.RevokeOne | internal/database/oidc_sessions.go:138-166 | succeeds exactly if one unrevoked session of a known user matches; from then on exactly the live sessions it does not name are found |
| Oidc.OidcStore.RevokeBulk | internal/database/oidc_sessions.go:108-136 | succeeds exactly if some selected session is unexpired, revokes all of those and counts them; from then on exactly the live sessions of other users or clients are found |
| Oidc.OidcStore.SetClientEnabled | internal/database/oidc_administration_audit.go:36-62 | disabling also revokes every unrevoked session of the client: none of its sessions is found, and those of others are found as before |
| OidcHistory.SingleUse | internal/oidc/provider.go:251-355 | over all interleaved exchanges, between two consumptions of a code hash it was issued again |
| OidcHistory.SessionCarriesGrant | internal/database/oidc_sessions.go:51-53 | every session goes back to one consumption of one created code and has its client, user and scope |
| OidcHistory.VerifierMatchesConsumedCode | internal/oidc/provider.go:276-292 | a session is opened only for a verifier that matches the challenge of the very code it consumes, unless a code of the same hash was issued anew between reading and consuming it |
| OidcHistory.DisabledForever | internal/database/oidc_administration_audit.go:36-62 | whatever is looked up as active for a client was opened after its last disabling, also once it is enabled again |
| OidcHistory.RevokedForever | internal/database/oidc_sessions.go:138-166 | a revoked session is never looked up again |
| OidcHistory.SessionStaysSignedIn | internal/database/oidc_sessions.go:48-65 | in every run: a session that was neither revoked nor had its client disabled is found by its token and client exactly before its end, while its user is there and the client enabled |
| OidcHistory.CodeStaysRedeemable | internal/database/oidc_audit.go:35-62 | in every run: a code neither used nor issued again is redeemable by its client at its redirect address exactly up to and including its end |
| OidcHistory.OneSessionPerToken | internal/database/oidc_sessions.go:51-53 | in every state a token belongs to at most one session |
| Framing.FramingRoundTrip | internal/database/postgres_import.go:330-340 | decoding the length-prefixed stream yields the encoded rows in order |
| Import.NormalizeIdempotent | internal/database/postgres_import.go:342-381 | normalising a normalised value changes nothing |
| Import.NormalizeMeans | internal/database/postgres_import.go:342-381 | a value is normalised to w if and only if it means w: nothing stays nothing, truth is itself or 1 for yes and 0 for no, a time is the multiple of 1000 ns at most 999 before it, and any other column keeps its value |
| Import.NormalMeans | internal/database/postgres_import.go:244-283 | a table is normalised exactly to what it means, row for row and column for column, if all of it can be encoded |
| Import.TablesComplete | internal/database/postgres_import.go:21 | every one of the fifteen tables is copied, once |
| Import.RowWeightCounts | internal/database/postgres_import.go:262-276 | a row counts against the budget with the length of its text and bytes, and sixteen for every other value |
| Import.DigestDetermines | internal/database/postgres_import.go:330-340 | equal digests if and only if the rows are encoded alike one by one and in order |
| Import.TypedDigestDetermines | internal/database/postgres_import.go:330-340 | where each column has values of one sort and the encoder tells those apart: equal digests if and only if equal rows in order |
| Reconcile.CopyRows | internal/database/postgres_import.go:244-283 | the cumulative budgets accept a table exactly if all rows normalise and both remaining budgets hold |
| Reconcile.DigestRows | internal/database/postgres_reconcile.go:16-53 | the remaining-budget form accepts under exactly the same condition |
| Reconcile.ImportTable | internal/database/postgres_import.go:242-328 | a table is imported only if the target was handed what the source means, inserted all of it, and reads back rows that normalise and encode like it, in order |
| Reconcile.ReconcileTable | internal/database/postgres_reconcile.go:130-240 | accepts if and only if both sides agree and the remaining budgets hold |
| Reconcile.SameExactly | internal/database/postgres_reconcile.go:130-240 | two tables agree if and only if what they mean is encoded alike, row by row |
| Reconcile.AcceptsNext | internal/database/postgres_reconcile.go:83-92 | checking one more table against what remains is checking the running totals |
| Reconcile.Target.ImportTables | internal/database/postgres_import.go:104-155 | a committed import was handed what the source means in every table and agrees with it, within a million rows and 128 MiB, with the source's counts; a failed one changes nothing |
| Reconcile.ReconcileTables | internal/database/postgres_reconcile.go:60-99 | accepts if and only if every table agrees and both budgets hold, with the source's counts |
| Reconcile.ImportThenReconcile | internal/database/postgres_reconcile.go:60-99 | whatever an import commits, reconciliation accepts with the same counts |
| Limiter.Compact | internal/oidc/provider.go:436-442 | the in-place compaction leaves exactly the recent times in order at the front |
| Limiter.Attempts.AllowedLimit | internal/oidc/provider.go:432-449 | admits exactly below the maximum, keeps the recent times, and leaves every other key's times alone |
| Limiter.StateIsRecent | internal/oidc/provider.go:432-449 | the slice of a key always holds the admitted calls of the window |
| Limiter.AdmittedIff | internal/oidc/provider.go:443-448 | a call is admitted if and only if fewer than the maximum were admitted in the ten minutes before it |
| Limiter.WindowBound | internal/oidc/provider.go:432-449 | no ten-minute window, wherever it ends, holds more than the maximum of admitted calls |

## Left out

* Power loss that drops completed but unsynced renames or unlinks: completed operations persist in order.
* Convergence of a full recovery from leftovers: without them it succeeds on a calm disk, but a leftover state or transaction temporary stops it; repeated attempts are treated for RestoreRollback only.
* An updater started by hand while a transaction is pending: the worker and the recovery are the only writers.
* File ownership, timestamps and the umask; set-id and sticky bits are not restored by the code and not compared by `Back`.
* Writers other than the worker and the recovery, and rollback or stage directories that lie on component targets.
* The file names behind `Path`: only target, install and restore replacement names are proved distinct; directories for stages and rollbacks are separate by construction.
* Cryptography, JSON, ZIP and SQL text: functions, parameters and maps stand for them; times are compared as numbers, not as stored text.
* HTTP plumbing, TLS client authentication (reduced to the client being enabled and not token-only), templates and forms.
* The list of allowed components is identified with the keys of the component table; both name the same twelve.
* The order of the job listing: up to 200 jobs of a client are all listed, of more an arbitrary part is.
* The token table's revocation column, which no code sets.
* systemctl commands: each check succeeds or fails arbitrarily, and succeeds where services are healthy.
* The client-side bundle of a device credential and its exchange with the server.
* PostgreSQL twins of the job, credential and audit methods, beyond the OpenID consumption pair.
* The OpenID consumption without a session and the unaudited client switch, which no production code calls; the users' case-insensitive lookup in bulk revocation.
* Column metadata, table shape checks, sequence watermarks and row length limits of the import; the target's answer to a copy is a parameter.
* Role tables, route permissions, metrics, greeter, camera and PAM helper.
- World.Machine.ScheduleClientUpdate: the form's parsing and the switch that disables updates are not modelled.
- UpdateWorker.RunWorker: the worker directory's checks and the lock file are reduced to a lock owner; the package file is not part of the disk.
