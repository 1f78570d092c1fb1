# Ephemeral Action Runner: verified models of its protocols

A Dafny model of the hard logic of the controller for disposable CI runners:
its crash-safe transactions, its shared locks and caches, its archive and
evidence verifiers, and the fast forms that must agree with a simple one.
`dafny verify dfyconfig.toml` checks everything.

Calls to the outside world (Docker, Tart, the sandbox runtime, file writes,
clocks, HTTP) may fail, lose the process, or take effect and still report an
error. In the protocols a script says how each call of one execution goes, so
that the state afterwards is an exact function of the script; the class with the
code's methods is proved to compute that function, and the theorems about runs
quantify over all scripts. For each of these functions a lemma says from the
start and the script alone exactly when it ends well, and what it then leaves.
A run that goes wrong is given by its scripts. Elsewhere a method is proved
against a relation between the state before and after it. Code that only
computes is a function.

| file | what it models |
|---|---|
| `ActivationState`, `Activation`, `ActivationCoordinator`, `ActivationRuns`, `ActivationRecovery`, `ActivationEnds` | the journaled activation of a sandbox template over journal, receipt, catalog and runtime; rollback; recovery after a crash; exactly when each of them ends well |
| `TartReplacement`, `TartCoordinator`, `TartRecovery`, `TartEnds` | replacing the configured Tart image through a rollback name, and startup after an interrupted replacement |
| `OutageSupervisor`, `OutageRuns`, `Backoff` | the durable outage incident, its deadline, all interleavings of its callers, and the retry delay in real arithmetic |
| `JsonTokens`, `JsonGrammar`, `SpdxScanner` | a JSON token decoder (RFC 8259 grammar over lexemes), its grammar against the printing of values, and the streaming SBOM scan over it |
| `ArchiveNames`, `TemplateArchive`, `ArchiveExamples` | safe entry names, the bounded archive scan, the digest chains of both archive forms, and archives that meet every hypothesis |
| `InstallationToken` | the cached GitHub installation token under concurrent requests |
| `HostTrustLock` | the three-layer lock on a configuration path |
| `BackendLocks`, `StorageReset`, `ResetApproval` | ordered backend locks; reset plan, the text its approval hashes, and catalog finalization |
| `BuildxReconcile`, `BuildxRuns` | ownership and reconciliation of the build cache builder, over runs |
| `PrebuiltAdmission`, `PrebuiltOutcomes`, `PrebuiltRuns` | the admission block of a critically revoked package, what each call finds and leaves, and runs of them |
| `ProgressFraming` | framing chunked output into lines, and progress snapshots |
| `HostTrustCanonical`, `HostTrustExamples` | the canonical host-trust snapshot, its generation, and snapshots that meet every hypothesis |
| `GoQuoting`, `ConfigText`, `ConfigLists` | Go string literals, the configuration loader, the generated fields, lists on one line, and refused lines |
| `ConfigTemplate`, `DockerFields`, `DockerTemplate` | the field table of the loader, and the whole text that setup writes for Docker containers |
| `Wrappers`, `Splitting`, `Text`, `Ordering` | shared shapes: options, splitting and joining, prefixes and trimming, orders and sorting |

No hash is taken to be injective. Where equal digests must mean equal contents,
the theorem asks it of the contents at hand only (the files of two archives, the
certificates of two snapshots, two approval texts), and a lemma exhibits inputs
that meet every hypothesis. The file-name hash of a backend lock stands for the
text it hashes. Decoders (JSON documents, gzip, PEM) are arbitrary functions of
bytes.

## Where the code does less than it seems to promise

Each item names the lemma with the input and the lemma that says exactly when
the code does keep the promise; where one lemma does both it stands alone.

- Activation: after an eviction, recovery imports the candidate again under a
  fresh cache identity, and the next attempt rolls back what the first one was
  about to commit (`ReimportTurnsCommitIntoRollback`). It does so exactly if the
  candidate was imported and its reference is cached under another identity than
  the published receipt has (`NextAttemptTurnsBack`); without such a change the
  choice of the first attempt is reached (`RerunsReachTheChoice`).
- Activation: a receipt that cannot be read at the start is not journaled and is
  lost with a rollback (`UnreadablePreviousIsLost`; exactly the receipts that are
  read are journaled, `PreviousIsJournaledIfRead`), and a published receipt that
  cannot be read at recovery is undone (`UnreadableReceiptIsUndone`; the candidate
  is committed exactly if its receipt was published and read, `RecoveryEnds`).
- Tart: a clone that was torn by a crash and still has an identity is accepted as
  the output image, and an earlier rollback image comes back instead of the
  previous one (`TornCloneIsAccepted`, `EarlierImageComesBack`). A startup that
  ends leaves the previous or the candidate content exactly if the output name
  carried one, or was free and the first exact rollback image has one
  (`LastStartupDecides`). With whole clones that holds for every interrupted
  replacement exactly if no exact rollback image with another content comes
  first (`OutputComesBackExactly`).
- Backoff: settings are normalized twice; exactly a jitter fraction above 100 is
  then divided twice (`NormalizeIsStable`). A cap below the floor does not cap
  (`LowCapIsExceeded`; `DelayIsBounded` for all settings).
- Supervisor: a wait sleeps outside the lock, so it can exhaust an incident that
  began meanwhile or one that has recovered (`SleepExhaustsNewerIncident`,
  `SleepUndoesRecovery`). A run of any interleaving stays good exactly if each
  wait that gives up finds an overdue record (`RunsStayGood`); a recovered
  incident becomes an exhausted one exactly by such a wait (`RecoveredIsExhausted`).
- Supervisor: an exhausted incident that a restart reopens before its deadline is
  marked for an immediate retry, but a wait under a bounded policy then sleeps to
  the deadline and gives up; it proceeds at once exactly under a policy without a
  deadline (`ReopenedRetriesExactly`; `RestartResumesExactly` says what a restart
  reopens).
- Supervisor: lost writes let a restart bring back an older incident
  (`LostWritesBringBackOldIncident`). A restart always takes up the stored
  beginning (`StepKeepsIncident`), so exactly a stale record moves it.
- Docker archives: a directory passes for a layer (`DirectoryPassesAsLayer`)
  exactly where the configuration names the empty diff ID
  (`EmptyDiffIdMeansDirectory`).
- Lock: the shared directory alone excludes nobody (`DirectoryAdmitsTwo`); the
  file lock always does (`AtMostOneLock`).
- Reset locks: identities are sorted as written but locked without surrounding
  white space, so the locks of one reset can be out of order or the same lock
  twice (`SpacesUnsortKeys`). A reset can stall exactly if its lock keys do not
  grow strictly (`StallsExactlyWhenUnsorted`). The real wait ends after thirty
  seconds, and the acquisition then fails and gives everything back.
- Reset approval: reports that differ in bytes that are not valid UTF-8 share an
  approval hash (`InvalidBytesShareHash`). Two reports share one, unless their
  texts collide, exactly if they are equal up to such bytes (`ApprovedIsShown`).
- Reset finalization: an unreferenced resource is forgotten as soon as any target
  with its identity was removed (`SameIdentityIsForgotten`; `KeptInOrder` is the
  exact condition).
- Builder: a first run that creates the builder and ends before it publishes
  metadata strands it, and so does a daemon identity with white space inside
  (`FirstRunMayStrand`, `OddBackendStrands`). `StrandsExactly` says when, and
  `RefusedExactly` for every state.
- Admission: an unreadable update state forgets a recorded block
  (`UnreadableStateForgets`); a restarted process whose start fails before reading
  the state is open, and it is blocked exactly otherwise (`EarlyFailureStaysOpen`);
  a check lifts its own record exactly if the catalog still resolves to the same
  manifest (`CheckMayLiftItsOwnRecord`). With readable states and landing writes a
  started process blocks exactly while a revocation was found and not lifted
  (`RevocationSticks`).
- Progress: the byte sums are signed 64-bit sums and wrap (`LargeTotalsWrap`; they
  are ordered exactly under the condition of `SnapshotsAreOrdered`).
- Host trust: policy entries whose joined keys coincide make the result depend on
  their order (`SharedKeyDependsOnOrder`, `NulSharesKey`); with distinct keys and
  certificate digests it never does (`OnlySetsMatter`). A line break in the host
  name can stand for a scope (`LineBreakForgesScope`); for texts without line
  breaks the generation names the content (`GenerationNamesContent`).
- Configuration: a list on one line is split at every comma, quoted or not; it is
  read back exactly if no item has a comma, blanks or quotes around it, or is
  empty (`InlineListIsReadBack`).
- Configuration: the comment stripper counts escaped quotes too, so a literal with
  a double quote before a `#` is cut (`QuoteThenHashIsCut`). A quoted line is read
  back exactly if the stripper leaves it whole (`ItemIsReadBack`,
  `GroupIsReadBack`), which it does for every text without double quotes. A value
  that setup writes without quotes, such as the path of the private key, is seen
  whole exactly if it has no `#` (`UnquotedValueIsKept`).

## Model

| member | source | states |
|---|---|---|
| `ActivationState.RegisterNames` | internal/image/storage_catalog.go:826-876 | after registration the catalog has exactly one current reference of the configuration, at the given artifact |
| `ActivationState.CustodyKeepsChoice` | internal/image/storage_catalog.go:566-610 | recording the abandoned candidate as superseded tracks it without changing which artifact is current |
| `ActivationCoordinator.Coordinator.Prepare` | internal/image/docker_sandboxes_activation.go:51-98 | computes the state and outcome of `Activation.PreparedBy` for every script: the journal names candidate and previous receipt before anything else changes |
| `ActivationCoordinator.Coordinator.Activate` | internal/image/docker_sandboxes_activation.go:185-330 | computes those of `Activation.ActivatedBy`, for every failure and crash of every operation |
| `ActivationCoordinator.Coordinator.Rollback` | internal/image/docker_sandboxes_activation.go:350-410 | computes those of `Activation.RolledBackBy` |
| `ActivationCoordinator.Coordinator.CommitPublished` | internal/image/docker_sandboxes_activation.go:425-462 | computes those of `Activation.CommittedBy` |
| `ActivationCoordinator.Coordinator.Recover` | internal/image/docker_sandboxes_activation.go:416-475 | computes those of `Activation.RecoveredBy` |
| `Activation.ActivationActivates` | internal/image/docker_sandboxes_activation.go:185-330 | every end of an activation, a crash after any operation included, is one of: nothing done, a journaled prefix, fully committed, or undone by rollback |
| `Activation.RollbackRollsBack` | internal/image/docker_sandboxes_activation.go:350-410 | a rollback that ends restored template, receipt and catalog of the previous artifact, or their absence, and settled custody; the journal goes only then |
| `Activation.RecoveryRecovers` | internal/image/docker_sandboxes_activation.go:416-475 | recovery commits forward if the candidate's receipt is on disk and read, and rolls back otherwise |
| `ActivationRuns.ActivationIsSound` | internal/image/docker_sandboxes_activation.go:185-330 | one activation, ended or cut anywhere, keeps the stores consistent with the journal |
| `ActivationRuns.RecoveryIsSound` | internal/image/docker_sandboxes_activation.go:416-475 | so does one recovery, ended or cut anywhere |
| `ActivationRuns.RunsStaySound` | internal/image/docker_sandboxes_activation.go:185-475 | so does every run of activations, recoveries, crashes, restarts and cache changes, readable receipts or not |
| `ActivationRecovery.PublishedExactly` | internal/image/docker_sandboxes_activation.go:416-433 | recovery takes the candidate for published exactly if the receipt on disk is the candidate's and has the identity that recovery gives it |
| `ActivationRecovery.RecoveryEnds` | internal/image/docker_sandboxes_activation.go:416-475 | a recovery that ends leaves all stores naming the candidate exactly if its receipt was published and read, else the previous artifact or nothing, with custody settled |
| `ActivationRecovery.NextAttemptTurnsBack` | internal/image/docker_sandboxes_activation.go:430-462 | after a cut commit and any cache change the next recovery goes back exactly if the candidate was imported and is cached under another identity than its receipt has |
| `ActivationRecovery.StepKeepsChoice` | internal/image/docker_sandboxes_activation.go:416-475 | a recovery, restart or cache change that leaves the journal behind leaves the same side to the next one, unless the candidate's identity changes |
| `ActivationRecovery.RerunsReachTheChoice` | internal/image/docker_sandboxes_activation.go:350-475 | however often recovery is cut and repeated, imports, restarts and cache changes included, all stores end at the side of the first attempt, unless the candidate's identity changes |
| `ActivationRecovery.RerunsEndInCustody` | internal/image/docker_sandboxes_activation.go:350-410 | a candidate that needs custody at the end is tracked |
| `ActivationRecovery.RollbackCanFinish` | internal/image/docker_sandboxes_activation.go:350-410 | a rollback in which every operation works ends exactly if the previous artifact is cached, or nothing foreign is active, and custody does not conflict |
| `ActivationRecovery.RollbackEndsExactly` | internal/image/docker_sandboxes_activation.go:350-410 | for every script: a rollback ends exactly if that holds and every operation that it comes to works; the journal goes exactly then, a removal reported late aside |
| `ActivationEnds.RecoveryEndsExactly` | internal/image/docker_sandboxes_activation.go:416-475 | for every script: a recovery ends exactly if there is no journal, or it is admitted and the side it takes has what it needs |
| `ActivationEnds.CommitCanFinish` | internal/image/docker_sandboxes_activation.go:433-462 | a published candidate is committed by a recovery in which every operation works exactly if it is cached, or its archive imports under the identity it had |
| `ActivationEnds.PreparesExactly` | internal/image/docker_sandboxes_activation.go:51-283 | the preparation ends exactly if the run is not refused and the candidate is cached or can be imported; it has then journaled the candidate under the identity it is cached with, the receipt read, and whether it was imported |
| `ActivationEnds.ActivationEndsExactly` | internal/image/docker_sandboxes_activation.go:185-330 | for every script: an activation succeeds exactly if it is prepared, every operation up to the removal of the journal works, and the reference is not empty; the journal is then gone and all stores name the candidate |
| `ActivationEnds.ActivationCanFinish` | internal/image/docker_sandboxes_activation.go:185-330 | one in which every operation works succeeds exactly if no journal is left over, the reference is not empty, and the candidate is cached under its identity or has an archive that imports under it |
| `ActivationEnds.FailedPublicationIsTakenBack` | internal/image/docker_sandboxes_activation.go:284-325 | a publication that fails once the candidate is active is rolled back before it returns: the journal goes exactly if the rollback has what it needs |
| `ActivationEnds.FailedActivationIsUndone` | internal/image/docker_sandboxes_activation.go:284-410 | then, with the previous artifact still cached and no foreign catalog entry in the way, all stores name the previous receipt again, or nothing |
| `ActivationEnds.EarlyFailureActivatesNothing` | internal/image/docker_sandboxes_activation.go:284-325 | one that fails before leaves template, receipt and catalog alone, under its journal |
| `ActivationRecovery.ReimportTurnsCommitIntoRollback` | internal/image/docker_sandboxes_activation.go:430-475 | two recoveries, given by their scripts, between which re-import changes the side |
| `ActivationRecovery.PreviousIsJournaledIfRead` | internal/image/docker_sandboxes_activation.go:67-74 | the journal's previous receipt is the one on disk exactly if it could be read |
| `ActivationRecovery.UnreadablePreviousIsLost` | internal/image/docker_sandboxes_activation.go:67-74 | the scripts of an activation and a recovery that lose an unreadable receipt |
| `ActivationRecovery.UnreadableReceiptIsUndone` | internal/image/docker_sandboxes_activation.go:416-433 | the script of a recovery that undoes a published candidate whose receipt it cannot read |
| `TartReplacement.NamesAreDistinct` | internal/image/build.go:438-453 | output, build and rollback names always differ |
| `TartCoordinator.Coordinator.Activate` | internal/image/build.go:464-531 | computes the state and result of `TartReplacement.ReplacedBy` for every script of provider and catalog calls |
| `TartCoordinator.Coordinator.Restore` | internal/image/build.go:545-567 | computes those of `TartReplacement.RestoredBy` |
| `TartCoordinator.Coordinator.RecordStaging` | internal/image/storage_catalog.go:477-519 | records an exact image under its identity, in place of a record of the same identity |
| `TartCoordinator.Coordinator.Reconcile` | internal/image/storage_catalog.go:1016-1106 | computes those of `TartRecovery.StartedBy`: loops over the records for the first exact rollback image, clones it into a missing output, and then gives up this configuration's references |
| `TartReplacement.ReplacementKeeps` | internal/image/build.go:464-531 | wherever a replacement is cut: until the candidate was read back under the output name it survives under its build name, and the previous content is under the output name or, recorded, under the rollback name; a reported restore did restore it |
| `TartEnds.ReplacementEndsExactly` | internal/image/build.go:464-531 | for every script: the candidate is read back exactly if the previous image was set aside and the clone to the output made and found; the replacement is reported exactly if the process then survives the clean-up, and leaves the build's content under the output name and neither other image, as far as they could be deleted |
| `TartEnds.ReplacementCanFinish` | internal/image/build.go:464-531 | one in which every call works replaces the image whenever it is ready to |
| `TartEnds.RefusedExactly` | internal/image/build.go:464-505 | while the process lives a replacement is refused exactly if it never comes to the candidate's clone |
| `TartEnds.FailedCandidateIsTakenBack` | internal/image/build.go:507-520 | a candidate that does not arrive: the previous image is reported as restored exactly if the restore had what it needs, and stands under the output name then; without one the candidate is kept |
| `TartEnds.RestoreEndsExactly` | internal/image/build.go:545-567 | a restore ends exactly if every call that it makes works, and puts a copy of the rollback image under the output name |
| `TartEnds.UnrecordedCopyIsDropped` | internal/image/build.go:493-496 | a rollback copy that cannot be recorded is deleted again |
| `TartEnds.StartupEndsExactly` | internal/image/storage_catalog.go:1016-1106 | a startup ends exactly if it has nothing of its own to do, or the output name is taken or can be filled from an exact rollback image, and its records can be given up |
| `TartRecovery.LastStartupDecides` | internal/image/storage_catalog.go:1016-1106 | a startup that ends, torn clones included, leaves one of the wanted contents exactly if the output name carried one, or was free and the first exact rollback image has one |
| `TartRecovery.OutputComesBackExactly` | internal/image/build.go:464-567 | with whole clones, every interrupted replacement and every series of startups brings back the previous or the candidate image exactly if the first exact rollback record that existed before, if any, has one of these contents |
| `TartRecovery.EarlierImageComesBack` | internal/image/storage_catalog.go:1053-1066 | otherwise there are scripts of a cut replacement and a startup that bring back that earlier image |
| `TartRecovery.TornCloneIsAccepted` | internal/image/storage_catalog.go:1051-1066 | from every replaceable state, a given script makes any torn content the output image |
| `TartRecovery.OthersKeepTheirRecords` | internal/image/storage_catalog.go:1080-1101 | startup gives up its own configuration's staging references only; every other configuration still finds its rollback image |
| `Backoff.NormalizeIsStable` | internal/dependency/backoff.go:51-78 | a second normalization is harmless exactly unless the jitter fraction is above 100 |
| `Backoff.NominalIsGeometric` | internal/dependency/backoff.go:106-115 | the nominal delay begins with the initial one and is multiplied from attempt to attempt, up to the cap |
| `Backoff.JitterStaysNear` | internal/dependency/backoff.go:117-130 | jitter moves it by at most its share, down for the smallest sample, up for the largest, not at all in the middle |
| `Backoff.DelayFollowsNominal` | internal/dependency/backoff.go:130-140 | the delay without hints is the jittered nominal one wherever floor and cap leave it alone, else the floor or the cap |
| `Backoff.PlainDelaysDouble` | internal/dependency/backoff.go:40-140 | without configuration and jitter delays double from fifteen seconds up to half an hour |
| `Backoff.DelayNeverDecreases` | internal/dependency/backoff.go:100-144 | for one sample and hint, a later attempt never waits less |
| `Backoff.DelayIsBounded` | internal/dependency/backoff.go:100-144 | without hints the delay lies between floor and cap; with hints it is the larger of that and the hints |
| `Backoff.LowCapIsExceeded` | internal/dependency/backoff.go:131-140 | a cap below the floor does not cap |
| `Backoff.ClampDelayToDeadline` | internal/dependency/backoff.go:163-175 | the clamped delay never passes the deadline, and a retry is granted exactly if it begins before it |
| `Backoff.BackoffState.Schedule` | internal/dependency/backoff.go:201-211 | one failure defers the next attempt by at least the floor and the hints, and by no less than one attempt earlier; the incident keeps its start |
| `OutageSupervisor.Supervisor.constructor` | internal/dependency/supervisor.go:112-143 | reopening a stored incident keeps its start and recomputes its deadline |
| `OutageSupervisor.Supervisor.Schedule` | internal/dependency/supervisor.go:172-213 | a failure opens or extends the incident, and answers exhausted exactly if the deadline is reached |
| `OutageSupervisor.Supervisor.BeginWait` | internal/dependency/supervisor.go:215-257 | the locked first half of a wait: proceeds, reports, gives up or goes to sleep, as record and clock decide |
| `OutageSupervisor.Supervisor.EndWait` | internal/dependency/supervisor.go:258-272 | the locked second half: without a permitted retry it exhausts whatever record it finds |
| `OutageSupervisor.Supervisor.WaitUntilReady` | internal/dependency/supervisor.go:215-272 | both halves in a row: how a wait ends that nobody interrupts |
| `OutageSupervisor.Supervisor.CheckDeadline` | internal/dependency/supervisor.go:274-288 | exhausts exactly an active overdue incident |
| `OutageSupervisor.Supervisor.MarkRecovered` | internal/dependency/supervisor.go:290-305 | ends the incident |
| `OutageRuns.RunsStaySound` | internal/dependency/supervisor.go:112-330 | in every state of every interleaving of failures, both halves of waits, checks, recoveries and restarts, the deadline is the one the start fixes, a retry is permitted exactly if it is due before it, and waits sleep to such a retry or to their own deadline |
| `OutageRuns.RunsStayGood` | internal/dependency/supervisor.go:236-272 | such a run keeps a retry time for each running incident and exhausts none early exactly if each wait that gives up finds an overdue record on waking |
| `OutageRuns.OwnIncidentIsOverdue` | internal/dependency/supervisor.go:236-272 | which it does whenever it finds the incident it began with |
| `OutageRuns.RecoveredIsExhausted` | internal/dependency/supervisor.go:264-272 | without a restart a recovered incident becomes an exhausted one exactly by a wait that sleeps past the recovery without a permitted retry |
| `OutageRuns.IncidentNeverMoves` | internal/dependency/supervisor.go:112-330 | while writes land, an active incident's start and deadline never move, restarts and interleaved waits included |
| `OutageRuns.StepKeepsIncident` | internal/dependency/supervisor.go:112-143 | only a restart moves the beginning of an active incident, and only to the stored one |
| `OutageRuns.FailureDefers` | internal/dependency/supervisor.go:172-213 | a failure in time counts one attempt and puts the next off by the delay of the attempts before it, or to the deadline; one at the deadline ends the incident |
| `OutageRuns.AttemptsAreFailures` | internal/dependency/supervisor.go:172-213 | through a whole incident, whatever comes in between, the attempts are the failures |
| `OutageRuns.WaitsForTheRetry` | internal/dependency/supervisor.go:215-257 | when a wait proceeds, reports, gives up or sleeps, and that it sleeps exactly to the next attempt |
| `OutageRuns.RecoveredWaitsNoMore` | internal/dependency/supervisor.go:290-305 | after a recovery no wait is held up |
| `OutageRuns.RestartResumesExactly` | internal/dependency/supervisor.go:112-143 | which stored incident a restart resumes or reopens, with beginning and attempts kept |
| `OutageRuns.ReopenedRetriesExactly` | internal/dependency/supervisor.go:130-143 | a reopened incident is retried at once exactly under a policy without a deadline |
| `OutageRuns.ProceedsOnlyWhenDue` | internal/dependency/supervisor.go:215-272 | what a wait proceeds on, at once or after a sleep in which the record may have changed |
| `OutageRuns.LostWritesBringBackOldIncident` | internal/dependency/supervisor.go:332-352 | a run from a fresh supervisor in which a restart returns to an older incident |
| `OutageRuns.SleepExhaustsNewerIncident` | internal/dependency/supervisor.go:236-272 | a run from a fresh supervisor in which a sleeping wait exhausts an incident begun after it |
| `OutageRuns.SleepUndoesRecovery` | internal/dependency/supervisor.go:236-272 | a run from a fresh supervisor in which a recovered outage ends as exhausted |
| `JsonTokens.Decoder.Token` | internal/image/docker_sandboxes.go:1677-1757 | one call of the streaming decoder returns the next token of the document and moves on, or reports an error, for numbers outside 64-bit floating point too |
| `JsonGrammar.GrammarReadsPrinted` | internal/image/docker_sandboxes.go:1677-1757 | the grammar reads a value between two places exactly if the lexemes there are the ones that value is printed with |
| `SpdxScanner.SkipJsonValue` | internal/image/docker_sandboxes.go:1792-1813 | consumes exactly one value of the grammar, on every nesting, or fails where the text is not a value |
| `SpdxScanner.ScanSpdxPredicate` | internal/image/docker_sandboxes.go:1759-1790 | succeeds exactly on one object with at most one SPDX identifier, a string or null, and returns exactly that identifier |
| `SpdxScanner.ReadMember` | internal/image/docker_sandboxes.go:1677-1757 | one scanned member is one member of the parsed tree |
| `SpdxScanner.ValidateInTotoSpdx` | internal/image/docker_sandboxes.go:1677-1757 | the streaming scan accepts exactly the documents whose whole parsed tree is an allowed statement with nothing after it |
| `ArchiveNames.SafeNamesHaveOrdinaryParts` | internal/image/docker_archive.go:200-210 | a name is accepted, unchanged, exactly if it has no NUL or backslash and no empty, `.` or `..` component apart from one trailing slash |
| `ArchiveNames.SafeNamesCollide` | internal/image/docker_archive.go:200-210 | two entries meet under one name only if they differ by a trailing slash |
| `TemplateArchive.Scan` | internal/image/docker_archive.go:121-198 | succeeds exactly on an archive of fewer than 100000 readable entries with safe, distinct names whose captured control bytes stay within the bound, and returns the record of each entry |
| `TemplateArchive.VerifyOci` | internal/image/docker_archive.go:281-362 | accepts exactly if one descriptor carries the tag and the digest chain over manifest, configuration and layers holds, and returns that digest |
| `TemplateArchive.VerifySave` | internal/image/docker_archive.go:223-279 | accepts exactly if the single image's configuration has the digest its name promises and every distinct layer its diff ID |
| `TemplateArchive.FullNamesMeetShortOnes` | internal/image/docker_archive.go:379-388 | a short name and its full spelling are one reference, and different short names never are |
| `TemplateArchive.VerifyArchive` | internal/image/docker_archive.go:78-119 | accepts exactly an admissible archive whose form verifies to the expected digest |
| `TemplateArchive.OciDigestDeterminesImage` | internal/image/docker_archive.go:281-362 | two OCI layouts accepted under one digest hold the same configuration and the same layers in order, unless two of their contents collide |
| `TemplateArchive.SaveDigestDeterminesImage` | internal/image/docker_archive.go:223-279 | two Docker archives accepted under one digest hold the same configuration and the same uncompressed layers in order, unless two of their contents collide |
| `TemplateArchive.EmptyDiffIdMeansDirectory` | internal/image/docker_archive.go:257-279 | a layer has no content exactly where the diff ID is empty |
| `ArchiveExamples.OciHypothesesCanBeMet` | internal/image/docker_archive.go:281-362 | for every digest that tells six contents apart there are two different layouts accepted under one digest that meet all hypotheses |
| `ArchiveExamples.SaveHypothesesCanBeMet` | internal/image/docker_archive.go:223-279 | and two such Docker archives |
| `TemplateArchive.DirectoryPassesAsLayer` | internal/image/docker_archive.go:143-146 | any directory entry passes as such a layer |
| `InstallationToken.Client.InvalidateInstallationToken` | internal/github/client.go:214-222 | empties the cache exactly if it still holds the rejected token |
| `InstallationToken.Client.FetchToken` | internal/github/client.go:224-251 | returns a token that is not about to expire without a mint, else mints once |
| `InstallationToken.Client.InstallationRequest` | internal/github/client.go:187-207 | a request goes through exactly the steps of `InstallationToken.Requested`, which are those of the concurrent machine, for every answer and every change of the cache by others |
| `InstallationToken.SentExactly` | internal/github/client.go:187-207 | sent exactly if the first fetch comes to a token, and again exactly if the answer was 401, the caller still waits and the second fetch comes to one; the refused token has left the cache before; the last answer is returned |
| `InstallationToken.RefusedTokenIsReplaced` | internal/github/client.go:187-251 | a cached token refused before it expires is replaced by the next mint, and the request repeated with the new one |
| `InstallationToken.ReusesExactly` | internal/github/client.go:224-231 | a request uses the cached token exactly if that stays valid for more than two minutes, and else holds the lock while it mints |
| `InstallationToken.EveryRunIsGood` | internal/github/client.go:187-251 | in every interleaving each mint is accounted for by the cached token, a thrown-away, an expired or a blank one |
| `InstallationToken.OneMintPerRefusedToken` | internal/github/client.go:187-251 | with fresh unexpired tokens there is at most one mint beside the first for each refused token |
| `InstallationToken.AtMostTwoSends` | internal/github/client.go:187-207 | no request is sent more than twice, nor twice with one fresh token |
| `InstallationToken.OnlyRejectionEmpties` | internal/github/client.go:214-251 | a cached token disappears only by a 401 on that very token, or by a blank mint over an expired one |
| `HostTrustLock.ConfigLock.Acquire` | internal/hosttrust/lock.go:32-79 | an acquisition takes exactly the course of its calls through the machine, whatever others do in between; success holds the map entry and the file lock, failure neither |
| `HostTrustLock.ConfigLock.AcquireShared` | internal/hosttrust/lock.go:129-162 | two rounds over the shared directory, each call as in the machine |
| `HostTrustLock.ConfigLock.Close` | internal/hosttrust/lock.go:89-102 | so does a close, which gives up entry and file lock |
| `HostTrustLock.TakenExactly` | internal/hosttrust/lock.go:32-162 | an undisturbed acquisition gets the lock exactly if its process has no entry for the path, no live process holds the directory, and the file is not locked |
| `HostTrustLock.CloseCleansUp` | internal/hosttrust/lock.go:89-170 | an undisturbed close removes pid file, directory, entry and file lock |
| `HostTrustLock.CallKeepsGood` | internal/hosttrust/lock.go:32-170 | each call of each thread keeps entries and file lock with their owners |
| `HostTrustLock.AtMostOneLock` | internal/hosttrust/lock.go:32-170 | in every interleaving of processes, threads and crashes at most one lock is held |
| `HostTrustLock.EveryEndGivesUp` | internal/hosttrust/lock.go:32-102 | whoever failed, closed or died keeps nothing, and whoever deletes an entry deletes its own |
| `HostTrustLock.EveryCallAdvances` | internal/hosttrust/lock.go:129-162 | every acquisition and every close ends |
| `HostTrustLock.QuietPathIsFree` | internal/hosttrust/lock.go:129-170 | once all others ended without crash or failed removal, a new acquisition that nobody disturbs gets the lock |
| `HostTrustLock.DirectoryAdmitsTwo` | internal/hosttrust/lock.go:136-160 | the reachable state in which two processes are past the shared directory |
| `BackendLocks.LockStore.AcquireAll` | cmd/ephemeral-action-runner/storage_reset.go:170-184 | all locks or none: it succeeds exactly if every wait ends in time and no lock is blank, repeated or held before, and a failure gives back every lock taken |
| `BackendLocks.LockStore.AcquireResetLocks` | cmd/ephemeral-action-runner/storage_reset.go:143-184 | the locks of exactly the backends the configuration refers to, in sorted order; all of them exactly if every wait ends in time and no two are the same |
| `BackendLocks.ConcernedBackends` | cmd/ephemeral-action-runner/storage_reset.go:156-169 | collects each such backend once, sorted |
| `BackendLocks.NoWaitingCycle` | cmd/ephemeral-action-runner/storage_reset.go:169-184 | any number of resets with strictly growing lock keys never wait in a circle |
| `BackendLocks.StallsExactlyWhenUnsorted` | internal/storage/catalog/catalog.go:166-171 | a reset can wait in a circle exactly if its lock keys do not grow strictly |
| `BackendLocks.SpacesUnsortKeys` | internal/storage/catalog/catalog.go:166-171 | sorted identities whose lock keys are unsorted, or the same |
| `StorageReset.BuildReport` | cmd/ephemeral-action-runner/storage_reset.go:186-273 | builds the plan of the catalog's verdicts exactly if there is no lease, the local directories are known, no verdict says stop and all that is to go can be planned |
| `StorageReset.StopsExactly` | cmd/ephemeral-action-runner/storage_reset.go:215-262 | the verdicts say stop exactly if a resource of this configuration alone has no exact artifact, cannot be observed, or has something else in its place |
| `StorageReset.PlanIsExact` | cmd/ephemeral-action-runner/storage_reset.go:215-273 | beside the local directories a report removes exactly the resources of this configuration alone that are still there under their identity, and lists exactly those that are gone |
| `StorageReset.ExplicitRemovalPlan` | internal/storage/explicit_plan.go:14-50 | orders exact artifacts by identity and refuses repetitions |
| `StorageReset.RemovalIsExclusive` | cmd/ephemeral-action-runner/storage_reset.go:215-262 | every catalog removal is a resource of this configuration and no other, observed under its exact identity |
| `StorageReset.ExclusiveResourceIsHandled` | cmd/ephemeral-action-runner/storage_reset.go:215-262 | no resource of this configuration alone is overlooked |
| `StorageReset.SharedAreForeign` | cmd/ephemeral-action-runner/storage_reset.go:215-232 | the shared list is exactly the resources others refer to as well, with all their names |
| `StorageReset.ApprovedIsShown` | cmd/ephemeral-action-runner/storage_reset.go:275-294 | unless the two texts collide, two reports carry one approval hash exactly if their ordered removals, shared and missing lists are equal up to invalid UTF-8; for valid texts exactly if they are equal |
| `StorageReset.ApprovedPlanIsShown` | cmd/ephemeral-action-runner/storage_reset.go:111-127 | however catalog and host changed, a plan under the hash of a shown one removes the same targets in the same order |
| `StorageReset.InvalidBytesShareHash` | cmd/ephemeral-action-runner/storage_reset.go:275-294 | two planned reports that differ in an invalid byte share every hash |
| `ResetApproval.SameTextExactly` | cmd/ephemeral-action-runner/storage_reset.go:275-294 | the JSON text of an approval (field order, omitted empty fields, escapes) determines it exactly up to invalid UTF-8 |
| `StorageReset.FinalizeResources` | cmd/ephemeral-action-runner/storage_reset.go:392-407 | both in-place passes leave exactly the kept resources without the configuration's references |
| `StorageReset.KeptInOrder` | cmd/ephemeral-action-runner/storage_reset.go:393-407 | the rest keeps its order, and a resource goes exactly if nothing refers to it and it is missing or removed |
| `StorageReset.OtherConfigsAreUntouched` | internal/storage/catalog/catalog.go:405-432 | every reference of every other configuration survives, in order; the reset one has none left |
| `StorageReset.SameIdentityIsForgotten` | cmd/ephemeral-action-runner/storage_reset.go:398-404 | identity alone makes the catalog forget an unreferenced resource |
| `BuildxReconcile.Reconciler.EnsureBuilder` | internal/image/buildx.go:299-320 | the attempt loop computes `BuildxReconcile.EnsuredBy` for every script: at most two attempts with the metadata read before the first |
| `BuildxReconcile.Reconciler.Attempt` | internal/image/buildx.go:322-425 | one attempt computes `BuildxReconcile.AttemptedBy`: lock, image, detach, create, verify, reread, publish |
| `BuildxReconcile.Reconciler.Remove` | internal/image/buildx.go:547-561 | a detach counts as done exactly if the builder is seen to be gone |
| `BuildxReconcile.AttemptIsSafe` | internal/image/buildx.go:322-425 | no attempt detaches a builder that it neither owns nor has made, and it publishes only what it verified between two equal backend readings |
| `BuildxRuns.ReadyMeansExpected` | internal/image/buildx.go:402-425 | success leaves a builder under metadata with exactly the requested setup and pulled image, for the one backend that all three readings named |
| `BuildxRuns.KeptBuilderFits` | internal/image/buildx.go:531-545 | a builder is taken over unchanged exactly if it can be inspected, metadata of this owner covers it, and setup, node and recorded backend suit |
| `BuildxRuns.ReadyExactly` | internal/image/buildx.go:322-425 | an attempt succeeds exactly if the image is pulled on the locked backend, a builder is kept or made and verified, the backend is still the same, and the metadata can be written; which metadata |
| `BuildxRuns.RetriesExactly` | internal/image/buildx.go:322-425 | the first attempt is repeated exactly if the backend changed during the pull, or a builder that disappoints can be detached |
| `BuildxRuns.SecondAttemptHeals` | internal/image/buildx.go:299-320 | a repeated run succeeds if the second attempt meets no failure and no foreign builder |
| `BuildxRuns.RunIsSafe` | internal/image/buildx.go:299-425 | all attempts of a run are safe, and the metadata changes only by what the last one published |
| `BuildxRuns.MetadataIsOurs` | internal/image/buildx.go:299-425 | after any number of runs and foreign builder changes the metadata is the initial one, or was published for this owner and the backend locked by the run that wrote it |
| `BuildxRuns.CreationTimeStays` | internal/image/buildx.go:411-416 | over all of them the time of creation never changes |
| `BuildxRuns.RefusedExactly` | internal/image/buildx.go:299-362 | the next run fails and changes nothing, whatever happens, exactly if there is a builder without metadata or metadata that does not load |
| `BuildxRuns.RefusedForever` | internal/image/buildx.go:356-362 | and so do all later runs |
| `BuildxRuns.StrandsExactly` | internal/image/buildx.go:376-425 | a run that found no metadata leaves such a state exactly if the builder exists when it ends unpublished, or the published backend does not load |
| `BuildxRuns.FirstRunMayStrand` | internal/image/buildx.go:382-400 | the script of such a run |
| `BuildxRuns.OddBackendStrands` | internal/image/buildx.go:134-143 | a daemon identity with white space inside is published and then refused |
| `PrebuiltAdmission.Coordinator.EnsurePrebuilt` | internal/image/docker_sandboxes_prebuilt.go:664-787 | one start computes the block, the state on disk and the outcome of `PrebuiltAdmission.EnsuredBy` for every read, write, status and resolution |
| `PrebuiltAdmission.Coordinator.CheckRemoteUpdate` | internal/image/update_policy.go:191-310 | one check computes those of `PrebuiltAdmission.CheckedBy` |
| `PrebuiltAdmission.Coordinator.ApplyPendingUpdate` | internal/image/update_policy.go:314-379 | applying a pending update computes those of `PrebuiltAdmission.AppliedBy` |
| `PrebuiltOutcomes.StartReports` | internal/image/docker_sandboxes_prebuilt.go:664-787 | from state and script alone: exactly when a start finds a revocation, activates a package, and succeeds |
| `PrebuiltOutcomes.StartRemembers` | internal/image/docker_sandboxes_prebuilt.go:664-787 | the block and the whole state on disk after a start whose writes work |
| `PrebuiltOutcomes.CheckReports` | internal/image/update_policy.go:191-310 | exactly when a check finds a revocation, confirms the package in use, and succeeds |
| `PrebuiltOutcomes.CheckRemembers` | internal/image/update_policy.go:191-310 | the block and the whole state after it: another manifest becomes pending, the same one clears what was pending and blocked |
| `PrebuiltOutcomes.ApplyReports` | internal/image/update_policy.go:314-379 | exactly when applying finds a revocation, activates the pending package, and succeeds |
| `PrebuiltOutcomes.ApplyRemembers` | internal/image/update_policy.go:314-379 | the block and the state after it |
| `PrebuiltRuns.RecordedExactly` | internal/image/docker_sandboxes_prebuilt.go:330-357 | over every run with readable states and landing writes a revocation is on disk at the end exactly if the status or the catalog told of one, or one stood before, and no activation or confirmation has lifted it since |
| `PrebuiltRuns.BlockFollowsRecord` | internal/image/docker_sandboxes_prebuilt.go:330-340 | a process that has started blocks exactly if the revocation is on disk; before that never without a record |
| `PrebuiltRuns.RevocationSticks` | internal/image/docker_sandboxes_prebuilt.go:330-357 | together: from its first start on, restarts included, a process blocks exactly while a revocation was found and not lifted |
| `PrebuiltRuns.RevocationBlocks` | internal/image/docker_sandboxes_prebuilt.go:342-351 | it blocks at once where it is found, even if it cannot be written |
| `PrebuiltRuns.FailureKeepsLastResolved` | internal/image/docker_sandboxes_prebuilt.go:735-775 | whatever activates nothing leaves the last resolved manifest and source alone, a first receipt aside |
| `PrebuiltRuns.LastResolvedComesFrom` | internal/image/docker_sandboxes_prebuilt.go:664-787 | over every run, failing reads and writes included, the last resolved package is the initial one, an activated one or a receipt's, or was lost with an unreadable state |
| `PrebuiltRuns.LiftedByResolution` | internal/image/docker_sandboxes_prebuilt.go:776-787 | what lifts a block leaves the state naming the package that did |
| `PrebuiltRuns.UnreadableStateForgets` | internal/image/docker_sandboxes_prebuilt.go:674-679 | after an unreadable state only a new revocation blocks and is on disk |
| `PrebuiltRuns.EarlyFailureStaysOpen` | internal/image/docker_sandboxes_prebuilt.go:664-679 | a restarted process is blocked exactly if its start reached the state |
| `PrebuiltRuns.CheckMayLiftItsOwnRecord` | internal/image/update_policy.go:206-294 | a check lifts the revocation it has just recorded exactly if the catalog still resolves to the same manifest for the same configuration |
| `ProgressFraming.FramingIgnoresChunks` | internal/image/buildx_progress.go:214-240 | however a stream is cut into writes, the flushed lines are those of the whole stream |
| `ProgressFraming.WriteTwice` | internal/image/buildx_progress.go:214-228 | writing in two pieces or one makes no difference |
| `ProgressFraming.Stream.Write` | internal/image/buildx_progress.go:214-228 | the write loop delivers exactly the complete lines to the monitor, in order, each at its own time, and keeps the rest |
| `ProgressFraming.Stream.Flush` | internal/image/buildx_progress.go:231-240 | delivers the last unfinished line, if any |
| `ProgressFraming.Monitor.ConsumeLine` | internal/image/buildx_progress.go:105-147 | one line updates step and layer as matched, with current bytes never above the total, and says whether anything changed |
| `ProgressFraming.Monitor.Consume` | internal/image/buildx_progress.go:83-103 | a line is reported exactly if it changes the summary and the last report is an interval ago |
| `ProgressFraming.Monitor.TakeSnapshot` | internal/image/buildx_progress.go:149-165 | the snapshot sums and counts exactly the known layers |
| `ProgressFraming.SnapshotsAreOrdered` | internal/image/buildx_progress.go:149-165 | completed layers never exceed known ones; the byte sums are ordered and not negative exactly if the sums modulo 2^64 are and the total is below 2^63 |
| `ProgressFraming.LatestLineCounts` | internal/image/buildx_progress.go:105-147 | a layer shows what the last line about it told, cut off at its total, whatever was told of others since |
| `ProgressFraming.LargeTotalsWrap` | internal/image/buildx_progress.go:155-161 | totals beyond that wrap |
| `HostTrustCanonical.Canonicalize` | internal/hosttrust/hosttrust.go:268-309 | fails exactly on an invalid certificate, else returns the canonical form |
| `HostTrustCanonical.CanonicalCertificates` | internal/hosttrust/hosttrust.go:269-287 | of each digest the last given certificate, in its standard form, ordered by digest |
| `HostTrustCanonical.OnlySetsMatter` | internal/hosttrust/hosttrust.go:268-309 | order and repetition of certificates, scopes and policy entries do not matter to result and generation, if distinct certificates have distinct digests and distinct entries distinct keys |
| `HostTrustCanonical.CanonicalIsStable` | internal/hosttrust/hosttrust.go:268-309 | canonicalizing is idempotent and its result unique |
| `HostTrustCanonical.GenerationNamesContent` | internal/hosttrust/hosttrust.go:294-307 | for plain texts, equal generations mean exactly equal host, scopes, certificates and policy, unless the two texts or two given certificates collide |
| `HostTrustExamples.HypothesesCanBeMet` | internal/hosttrust/hosttrust.go:268-309 | snapshots that meet every hypothesis about digests |
| `HostTrustCanonical.SortedUnique` | internal/hosttrust/hosttrust.go:311-326 | each non-empty normalized value once, sorted |
| `HostTrustCanonical.SortedPolicy` | internal/hosttrust/hosttrust.go:342-362 | the last entry of each key, ordered by its three fields |
| `HostTrustCanonical.CleanKeysSeparate` | internal/hosttrust/hosttrust.go:342-347 | without NUL characters distinct entries have distinct keys |
| `HostTrustCanonical.SharedKeyDependsOnOrder` | internal/hosttrust/hosttrust.go:342-347 | two entries under one key make the result depend on order |
| `HostTrustCanonical.NulSharesKey` | internal/hosttrust/hosttrust.go:342-347 | two entries under one key |
| `HostTrustCanonical.LineBreakForgesScope` | internal/hosttrust/hosttrust.go:294-299 | a line break in the host name can stand for a scope |
| `GoQuoting.QuoteUnquotes` | cmd/ephemeral-action-runner/init.go:2099-2108 | every text is read back from its quoted literal |
| `GoQuoting.CutLiteralFails` | internal/config/config.go:2132-2145 | a literal cut after an inner quote does not read |
| `ConfigText.StripComment` | internal/config/config.go:2110-2130 | the loop cuts at the first `#` outside quotes, counting every quote |
| `ConfigText.Load` | internal/config/config.go:336-435 | the line loop is the step-by-step interpretation of sections, keys and list items |
| `ConfigText.ItemIsReadBack` | internal/config/config.go:365-376 | an item line gives back its path exactly if the stripper leaves it whole |
| `ConfigText.GroupIsReadBack` | internal/config/config.go:474-475 | the group line gives back its name exactly if the stripper leaves it whole |
| `ConfigText.QuotelessLinesAreKept` | internal/config/config.go:2110-2130 | no text without a double quote is cut |
| `ConfigText.QuoteThenHashIsCut` | internal/config/config.go:2110-2130 | a text that is |
| `ConfigText.GeneratedTextIsReadBack` | cmd/ephemeral-action-runner/init.go:2095-2108 | for every renderer whose other lines load, the text gives back exactly name and script list, the comment for an empty list included, if no literal is cut |
| `ConfigText.QuotelessTextIsReadBack` | cmd/ephemeral-action-runner/init.go:2095-2108 | which holds for every name and every list of non-empty paths without double quotes |
| `ConfigTemplate.UnquotedValueIsKept` | internal/config/config.go:2110-2130 | a value written without quotes is seen whole exactly if it has no `#` |
| `ConfigTemplate.BlockLoads` | internal/config/config.go:351-435 | a section of settings that suit their fields loads wherever it stands, and touches none of the quoted fields |
| `DockerTemplate.OtherLinesLoad` | cmd/ephemeral-action-runner/init.go:1870-1957 | all other lines of the Docker text load, around any scripts and any group, for every setup of plain values |
| `DockerTemplate.DockerTextIsReadBack` | cmd/ephemeral-action-runner/init.go:1870-1958 | the whole Docker text, as one string, is scanned as its lines, loads, and gives back exactly name and script list |
| `ConfigText.LinesSurvive` | internal/config/config.go:351-360 | lines written below one another are scanned as those lines |
| `ConfigLists.InlineListIsReadBack` | internal/config/config.go:2147-2163 | a list on one line gives back its items in order exactly if each is not empty, has no comma, and nothing around it that reading takes away |
| `ConfigLists.MalformedLineRefuses` | internal/config/config.go:377-390 | a line that is no setting, or heads an unknown section, refuses the whole file wherever it stands |
| `ConfigLists.UnfitValueRefuses` | internal/config/config.go:391-435 | so does a setting before any section, or one whose value does not fit |
| `ConfigText.QuotedFieldsStayOnLine` | cmd/ephemeral-action-runner/init.go:2104-2106 | a quoted field never breaks its line |

## Left out

- Receipt evidence validation, receipt migration and archive re-verification around an activation: many single checks that decide before the transaction starts.
- Candidates whose cache identity was never journaled: custody after a rollback is then not decided by the code either.
- Supervisor runs that change the policy between restarts: reopening can then start with an unset retry time.
- Backoff.DelayNeverDecreases: real arithmetic; the rounding of 64-bit floating point, infinities and NaN are not modelled.
- OutageSupervisor.Supervisor.WaitUntilReady: a wait that nobody interrupts; the interleavings are those of its two halves in `OutageRuns`.
- JsonTokens.Decoder.Token: works on lexemes; string escapes, number syntax and the byte limits of the lexical pre-check are not modelled, and whether a number fits 64-bit floating point is part of its lexeme.
- SpdxScanner.ValidateInTotoSpdx: decoding a string keeps the old value on null as the code does; reading the file is left out.
- TemplateArchive.Scan: tar framing is a list of entries with the bytes that can be read of each; sparse files are not modelled, and gzip is a function of the bytes.
- TemplateArchive.VerifySave: file names are split at `/` only, as on hosts where that is the separator.
- Two archives of different forms under one digest: an OCI digest names a manifest and a Docker digest a configuration, so nothing relates them.
- InstallationToken.FetchToken: the two HTTP calls behind a mint are one answer, since both happen under the lock.
- HostTrustLock.ConfigLock.Acquire: one canonical path; different paths share nothing. Process numbers are not reused.
- BackendLocks.LockStore.AcquireBackendLock: the thirty-second wait is one answer, that the holder gave the lock back in time or not.
- ResetApproval.SameTextExactly: the text is a string of characters, in which a byte that is not valid UTF-8 stands as one of 128 private characters; identities are ordered by these characters.
- Storage execution itself, directory sizes and the fixed local directories of a reset: inputs of the plan.
- BuildxRuns.KeptBuilderFits: the inspection is its node count and error flag; the text parsing behind them is left out.
- PrebuiltAdmission.Coordinator.EnsurePrebuilt: all times and counters of the update policy are one opaque schedule.
- ProgressFraming.Monitor.ConsumeLine: the two line patterns and the byte-size parser are one function from a line to its match.
- HostTrustCanonical.Canonicalize: X.509 parsing is a function, and the update in place of the caller's slice is not modelled.
- GoQuoting.QuoteUnquotes: texts are Unicode scalar values; invalid UTF-8 and single-byte escapes from 0x80 on are not modelled.
- ConfigText.Load: typed fields keep their text, checked by one predicate per field; lines beyond the scanner's 64 KiB buffer, defaults and cross-field validation are left out.
- DockerTemplate.DockerTextIsReadBack: the texts for Docker Sandboxes and WSL, whose other lines are sections of the same kind, are not instantiated; the syntax of floating-point numbers is a parameter.
- Prompts, console output, redaction, trust-store collectors, registry clients and guest commands: outside the logic modelled here.
