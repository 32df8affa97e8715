# Hydra Local: verified models

Dafny models of the crash-recoverable file protocols in the Hydra agent, of its blocking-to-async byte
stream, and of the loops in the release scripts, the local-control client and the launch dialog whose
meaning can be stated without their code. Each model comes with proofs over every input, every run or
every interleaving.

`dafny verify dfyconfig.toml` checks everything.

## What is modelled

- **Authority-mode migration** (`AuthorityMigration`, `AuthorityRuns`, `AuthorityReceipts`). Ten fixed paths, their modes, and
  the receipt. Every disk exists twice: what processes see (`vol`) and what a power loss leaves (`dur`).
  A call has a budget of file effects after which it stops, which stands for a kill or a failing system
  call at that point.
- **Owner, record and legacy adoption** (`DeviceOwnership`, `EnrollmentMigration`, `EnrollmentRuns`). A
  canonical directory and any number of legacy ones, each with an optional key, record, owner and marker.
  Budgets count publications and removals.
- **Owner publication by hard link** (`OwnerPublication`, `OwnerPublicationRuns`). An inode graph with link
  counts; any number of publishers and recoveries moving in atomic steps, starting and stopping anywhere.
- **The async stream** (`AsyncStream`). Polls, the write task and the read worker as one interleaved
  state machine.
- **Loops**: `DependencyClosure`, `FramedConnection`, `MarkerScan`, `DiagnosticRing`, `RedeemBody`,
  `LicenseMaterial`, `LicenseDocument`, `ArchiveOrder`.
- **The launch dialog's submission guard** (`SubmissionGuard`): an async function cut at its awaits.

Code that changes files or fields is a class whose methods are proved equal to a specification function;
the theorems are about those functions and about runs of them. What the code takes from outside is a
parameter: release provenance, key and record validation, path syntax, UTF-8 validity, the JSON size of a
diagnostic event, the order in which a directory or set is enumerated, how a socket or response splits its
bytes, and every answer of the native host. SHA-256 is a free constructor in the migrations (equal digests
mean equal contents) and an arbitrary function in the licence collector, where a collision is one of the
error cases. JSON files are values: their parsed fields, any unknown keys, an explicit null, and a layout.

## Where a promise holds only under a condition

- *Every changed mode has its receipt.* A resumed apply does not sync the home directory again, so it can change
  a mode while its receipt is not yet durable. Over whole runs with kills and power losses,
  `EveryChangeKeepsItsReceiptIff`: the promise holds if and only if no apply resumed on such a receipt.
  `ReceiptSurvivesIff` is the same for one call and every budget, and `UnsyncedReceiptCanBeLost` reaches the
  failing case from every applicable plan.
- *A tightened path survives a power loss.* The apply loop syncs only the paths it changes itself, so a retry
  does not sync a path that a killed attempt had changed. `TighteningSurvivesIff` gives the exact condition,
  `AcknowledgedTighteningCanBeLost` a run from every applicable plan that fails it after a successful
  acknowledgement, and `CleanRunsStayDurablyOrderly` the full guarantee when calls start from a synced disk.
- *A failed apply shows a notice once it has changed something.* It holds if and only if the texts of the changed
  paths and of the receipt are public (`FailuresShowThemselvesIff`). A ready notice needs only the former, so it
  can be shown where an interrupted one cannot (`NoticeForms`).
- *Adoption converges.* Saving re-serialises the record, and later comparisons are between JSON values. With other
  than canonical JSON (unknown keys or an explicit null) an attempt stopped between record and marker leaves a
  directory that no later attempt changes; every other run of attempts converges, though the attempt that arrives
  may report an error (`InterruptedAdoptionsConverge`, `AttemptArrives`, `StuckForever`).
- *Recovery makes the owner readable.* Left alone, it does so exactly within the 128-entry inventory
  (`RecoverySucceedsIff`).
- *A second submit is ignored while one is pending.* It holds for everything behind the guard
  (`NothingElseMutatesWhilePending`). A save that launches nothing takes the early branch before the guard;
  `EarlySaveAndAttemptBothMutateIff` says exactly when it and the attempt in flight can both take effect.
- *Creator and verifier list the same archive.* They do exactly when the staged tree is the reviewed one
  and no directory is without a file (`CreatorMatchesVerifierIff`).

## Model

| member | source | states |
|---|---|---|
| AuthorityRuns.TargetIsSettled | hydra-agent/src/authority_migration.rs:412-431 | a planned target mode is a fixed point of the target rule, only clears bits, has no group or world write and no special bit, and every change has a public form |
| AuthorityRuns.AncestorsAreListedFirst | hydra-agent/src/authority_migration.rs:386-409 | every proper ancestor of a fixed path below home is itself listed, and earlier |
| AuthorityRuns.NoticeForms | hydra-agent/src/authority_migration.rs:320-353 | a notice can be formed from a valid receipt if and only if the texts of the changed paths are public and, outside the ready phase, the receipt's own path is |
| AuthorityRuns.ChangesAreTheChangedEntries | hydra-agent/src/authority_migration.rs:320-353 | the changes a notice lists are the entries whose mode changes, all of them and no other |
| AuthorityMigration.HomeStore.ValidateBoundPaths | hydra-agent/src/authority_migration.rs:907-969 | returns the current modes exactly when receipt, inode, owner, type, bytes and mode of all ten paths are as bound |
| AuthorityMigration.HomeStore.TightenPath | hydra-agent/src/authority_migration.rs:1135-1163 | one path of the loop: skip, recheck, chmod, sync, recheck, stopping wherever the budget ends |
| AuthorityMigration.HomeStore.TightenPaths | hydra-agent/src/authority_migration.rs:1135-1178 | the whole loop and its final check leave the state and report that the specification gives, for every budget |
| AuthorityMigration.HomeStore.ApplyMigration | hydra-agent/src/authority_migration.rs:1079-1178 | discovery or resume, receipt publication and the loop, for every budget |
| AuthorityMigration.HomeStore.AcknowledgeMigration | hydra-agent/src/authority_migration.rs:1190-1247 | checks, sync, unlink and last sync, for every budget |
| AuthorityRuns.ApplyNeedsConsent | hydra-agent/src/authority_migration.rs:1087-1133 | on any disk, an apply changes something only with verified provenance, for the plan whose notice was accepted, and on resume only while every path is as the receipt bound it |
| AuthorityRuns.EveryRunIsSafe | hydra-agent/src/authority_migration.rs:999-1247 | over every run with kills and power losses, each visible and durable mode is its original or its target, and every receipt still describes the paths |
| AuthorityRuns.TightenIsLoop | hydra-agent/src/authority_migration.rs:1135-1163 | from any reachable disk the checked loop has exactly the effects of the plain loop over goal modes |
| AuthorityRuns.RetryFinishes | hydra-agent/src/authority_migration.rs:1079-1178 | from any reachable disk a call that is not stopped leaves every path at its goal, and succeeds exactly when the path texts its notice names are public |
| AuthorityRuns.RetryMatchesUninterrupted | hydra-agent/src/authority_migration.rs:1079-1178 | after any history of kills, power losses and partial attempts, a complete retry leaves the modes one uninterrupted run leaves |
| AuthorityRuns.KilledRunsStayOrderly | hydra-agent/src/authority_migration.rs:386-409 | without power loss, the tightened paths are a prefix of the fixed order, and any changed mode has a receipt until an acknowledgement |
| AuthorityRuns.CleanRunsStayDurablyOrderly | hydra-agent/src/authority_migration.rs:1135-1163 | with power losses anywhere and calls starting from a synced disk, at most one path differs between visible and durable, and any durable change has a durable receipt until an acknowledgement |
| AuthorityRuns.TighteningSurvivesIff | hydra-agent/src/authority_migration.rs:1135-1163 | an applied and acknowledged migration survives every power loss if and only if the paths the finishing apply found at target were already synced there |
| AuthorityReceipts.ReceiptSurvivesIff | hydra-agent/src/authority_migration.rs:1087-1163 | for every call and budget: after it every changed mode keeps its receipt through any power loss, if and only if it started without a receipt or with a durable one, or did nothing to an untouched disk |
| AuthorityReceipts.EveryChangeKeepsItsReceiptIff | hydra-agent/src/authority_migration.rs:814-1163 | over whole runs with kills and power losses, before an acknowledgement: that holds at every point if and only if no apply resumed on a receipt that was not yet durable |
| AuthorityReceipts.UnsyncedReceiptCanBeLost | hydra-agent/src/authority_migration.rs:814-870 | from every applicable plan, a kill between publishing and syncing the receipt and a resumed apply with any effect reach the failing case |
| AuthorityReceipts.AcknowledgedTighteningCanBeLost | hydra-agent/src/authority_migration.rs:1135-1163 | from every applicable plan, an apply killed between chmod and sync, a successful retry, a successful acknowledgement and a power loss leave a mode untightened and no receipt |
| AuthorityRuns.FailureWithoutNoticeChangedNothing | hydra-agent/src/authority_migration.rs:105-119 | on any disk, an apply that fails without a notice has changed no mode on either disk, when the path texts are public |
| AuthorityRuns.FailuresShowThemselvesIff | hydra-agent/src/authority_migration.rs:105-119 | however far an accepted call gets, a failure without a notice has changed no mode, if and only if the path texts are public |
| AuthorityReceipts.NoticeIdIsStable | hydra-agent/src/authority_migration.rs:283-299 | over every run without power loss, every notice a probe shows and every notice an apply returns, on success or failure, carries the digest of the plan discovered at the start |
| AuthorityRuns.ReceiptIsRemovedOnlyWhenTightened | hydra-agent/src/authority_migration.rs:1216-1247 | apart from a power loss, the receipt disappears only by an acknowledgement with every path at its target |
| AuthorityRuns.ProbeTellsThePhase | hydra-agent/src/authority_migration.rs:972-1024 | on a reachable disk the probe shows ready exactly without a receipt, applied exactly when every path is at its goal, and interrupted otherwise |
| AuthorityRuns.ProbeAfterAcknowledgement | hydra-agent/src/authority_migration.rs:999-1024 | after a successful acknowledgement the probe reports nothing |
| DeviceOwnership.TrimSlashes | hydra-agent/src/device_identity.rs:1431-1437 | removes exactly the trailing slashes of a cloud base |
| DeviceOwnership.AgentDirectory.Claim | hydra-agent/src/device_identity.rs:1505-1530 | publishes the owner of the existing record or of the candidate, or refuses, for every budget |
| DeviceOwnership.AgentDirectory.Save | hydra-agent/src/device_identity.rs:1560-1563 | claims the owner before the record is written, for every budget |
| DeviceOwnership.AgentDirectory.Remove | hydra-agent/src/device_identity.rs:1603-1613 | secures the owner before the record is removed, for every budget |
| DeviceOwnership.AgentDirectory.RemoveIf | hydra-agent/src/device_identity.rs:1615-1626 | removes only the record of the named device and says whether it did |
| DeviceOwnership.AgentDirectory.Release | hydra-agent/src/device_identity.rs:1205-1264 | drops the owner only while no record exists |
| DeviceOwnership.ActiveRecordsAreOwned | hydra-agent/src/device_identity.rs:1505-1626 | in every run from an empty directory, stopped anywhere, a record is never without an owner and both name one account and trimmed cloud base |
| DeviceOwnership.RunsStayConsistent | hydra-agent/src/device_identity.rs:1505-1626 | the same agreement is kept by every run from any consistent directory |
| DeviceOwnership.AccountChangeNeedsRelease | hydra-agent/src/device_identity.rs:1205-1264 | two active records of different owners are separated by a release made while no record existed |
| DeviceOwnership.RecordChangesHaveACause | hydra-agent/src/device_identity.rs:1603-1626 | over every run, a record that changed or went was saved over, removed, or revoked by its own device id |
| DeviceOwnership.DelayedRevokesMakeNoDifference | hydra-agent/src/device_identity.rs:1615-1626 | once a device is gone and not enrolled again, erasing all revokes for it from a run changes nothing |
| DeviceOwnership.RemovalKeepsOwner | hydra-agent/src/device_identity.rs:1603-1613 | a removed record leaves its owner behind: the one that was there, or the record's own |
| DeviceOwnership.SavedRecordIsLoaded | hydra-agent/src/device_identity.rs:1560-1573 | a successful save is read back whole under an owner of its account and cloud base, and replaces no owner |
| EnrollmentMigration.EnrollmentStore.PublishMarker | hydra-agent/src/enrollment_migration.rs:787-798 | installs the marker without replacing one, or verifies the one present |
| EnrollmentMigration.EnrollmentStore.PublishAdoption | hydra-agent/src/enrollment_migration.rs:323-352 | owner, key, record and marker in that order, then the comparison with the source, for every budget |
| EnrollmentMigration.EnrollmentStore.AdoptSource | hydra-agent/src/enrollment_migration.rs:255-352 | adoption from a proven source, with its key-only and conflict branches |
| EnrollmentMigration.EnrollmentStore.ReconcileWith | hydra-agent/src/enrollment_migration.rs:354-405 | a complete canonical enrollment beside a proven source is left, marked or refused |
| EnrollmentMigration.EnrollmentStore.AdoptLegacy | hydra-agent/src/enrollment_migration.rs:170-253 | the whole adoption call, marker cases first, for every budget |
| EnrollmentMigration.EnrollmentStore.RetireLegacy | hydra-agent/src/enrollment_migration.rs:700-758 | removal of record, key and marker in that order, for every budget |
| EnrollmentRuns.AdoptionReplacesNothing | hydra-agent/src/enrollment_migration.rs:170-405 | from any state, adoption replaces no canonical key, record or owner, and touches a legacy directory only by resuming a retirement |
| EnrollmentRuns.OutcomesAreEarned | hydra-agent/src/enrollment_migration.rs:170-405 | from any state and for any budget, an adopted enrollment equals its source and its marker holds, an already adopted one has a marker that holds, an already canonical one is usable with no record beside it, and the remaining outcome leaves no complete enrollment |
| EnrollmentRuns.ConflictsAreRefused | hydra-agent/src/enrollment_migration.rs:300-320 | a canonical key or record that differs from a proven source's makes adoption fail and leaves both sides' key, record and marker alone |
| EnrollmentRuns.AttemptArrives | hydra-agent/src/enrollment_migration.rs:255-405 | for every budget and any JSON, one attempt from an unmarked crash point reaches the destination exactly with more effects than missing files, is stuck exactly when stopped between record and marker with other than canonical JSON, and else stays on course; it reports success exactly when it arrives with the source's JSON value |
| EnrollmentRuns.SettledStays | hydra-agent/src/enrollment_migration.rs:190-206 | a finished adoption is reported as already adopted and left alone, also when the attempt that finished it reported an error |
| EnrollmentRuns.InterruptedAdoptionsConverge | hydra-agent/src/enrollment_migration.rs:170-405 | any number of interrupted attempts, for any JSON: stuck if and only if one was stopped at the losing point, else heading for one destination, which a finishing attempt reaches: the source's key, record and owner, and the marker bound to them; canonical JSON has no losing point |
| EnrollmentRuns.StuckForever | hydra-agent/src/enrollment_migration.rs:354-405 | a stuck directory is refused and left as it is by every later sequence of attempts |
| EnrollmentRuns.RemovedRecordNeverReturns | hydra-agent/src/enrollment_migration.rs:191-206 | once an adopted record is removed, no sequence of adopt, remove and retire calls, stopped anywhere, brings a record back from that source |
| EnrollmentRuns.RetirementResumes | hydra-agent/src/enrollment_migration.rs:700-758 | retirement deletes record, then key, then marker, and from wherever it stops it can be resumed to the same end |
| EnrollmentRuns.ChangedLegacyFilesStay | hydra-agent/src/enrollment_migration.rs:743-758 | from any state, no call deletes or changes a legacy file whose digest the marker does not hold, and none touches a legacy owner |
| OwnerPublication.OwnerDirectory.PublishNoReplace | hydra-agent/src/device_identity.rs:1443-1495 | the publisher's code, stopped after any number of steps, is the step machine run that far |
| OwnerPublication.OwnerDirectory.RecoverCompletedPublication | hydra-agent/src/device_identity.rs:1271-1416 | recovery without interference, over any enumeration of the directory, is the specified recovery |
| OwnerPublication.OwnerDirectory.CollectMatching | hydra-agent/src/device_identity.rs:1345-1366 | the inventory loop completes exactly within the bound and then finds exactly the temporaries bound to the owner's inode |
| OwnerPublication.PublishersUseExactNames | hydra-agent/src/device_identity.rs:1418-1429 | every name a publisher uses is recognised as an exact temporary, and the final name is not |
| OwnerPublicationRuns.SecondTemporaryIsImpossible | hydra-agent/src/device_identity.rs:1345-1373 | a twice-linked owner has at most one matching temporary |
| OwnerPublicationRuns.RecoveryIsExact | hydra-agent/src/device_identity.rs:1271-1416 | recovery without interference removes at most one name, only an exact temporary of the owner's inode, keeps the final name's inode and bytes, and success leaves one link |
| OwnerPublicationRuns.RecoveryAloneIsAtomic | hydra-agent/src/device_identity.rs:1271-1416 | the stepped recovery, with its rechecks and its single-link readback, is that recovery when left alone |
| OwnerPublicationRuns.EveryInterleavingPublishesWhole | hydra-agent/src/device_identity.rs:1443-1495 | with any publishers and stepped recoveries, starting, crashing and restarting under reused names, the owner name is absent or holds one publisher's complete bytes |
| OwnerPublicationRuns.FirstOwnerWins | hydra-agent/src/device_identity.rs:1443-1495 | once published, the owner's inode and bytes never change and its links never grow |
| OwnerPublicationRuns.SuccessMeansOwned | hydra-agent/src/device_identity.rs:1463-1489 | when a publisher succeeds the owner holds its bytes or bytes that read as its owner, in every continuation |
| OwnerPublicationRuns.RecoveredStaysReadable | hydra-agent/src/device_identity.rs:1367-1416 | when a recovery succeeds beside other processes, an owner that was there is readable in every continuation |
| OwnerPublicationRuns.RecoverySucceedsIff | hydra-agent/src/device_identity.rs:1271-1416 | from every reachable point recovery left alone makes the owner readable if and only if it has one link, or its bytes are valid and the directory is within the bound |
| AsyncStream.Adapter.PollWriteCompletion | hydra-agent/src/daemon_transport.rs:299-318 | collects the pending write's outcome and makes a failure sticky |
| AsyncStream.Adapter.Write | hydra-agent/src/daemon_transport.rs:366-396 | accepts at most one bounded chunk, and only when none is pending |
| AsyncStream.Adapter.Shutdown | hydra-agent/src/daemon_transport.rs:400-407 | closes writing and aborts the native stream only when completion says so |
| AsyncStream.Adapter.Read | hydra-agent/src/daemon_transport.rs:343-365 | delivers queued bytes first, then the stored error, then the end of file |
| AsyncStream.EveryInterleavingKeepsOrder | hydra-agent/src/daemon_transport.rs:258-407 | in every interleaving, written bytes are an in-order prefix of accepted ones with at most one bounded chunk outstanding, and delivered bytes an in-order prefix of read ones |
| AsyncStream.ReportsAreComplete | hydra-agent/src/daemon_transport.rs:343-396 | over any run, the bytes accepted and delivered are exactly the ones the polls reported, in order |
| AsyncStream.SuccessMeansWritten | hydra-agent/src/daemon_transport.rs:397-407 | success from flush or shutdown means everything accepted was written and flushed |
| AsyncStream.FailureIsSticky | hydra-agent/src/daemon_transport.rs:299-318 | after a native write failure no byte is accepted or written in any interleaving, and every write, flush and shutdown reports that failure |
| AsyncStream.ReadReportsInOrder | hydra-agent/src/daemon_transport.rs:343-365 | an error or end of file is reported only after every earlier byte was delivered, and an end of file only when no error is stored |
| AsyncStream.StoredErrorIsNeverHidden | hydra-agent/src/daemon_transport.rs:343-365 | in every interleaving a stored read error is what a drained, closed queue reports |
| AsyncStream.ReadSideNeverAbortsWrites | hydra-agent/src/daemon_transport.rs:258-298 | nothing on the read side touches the write side; native I/O is aborted only by a drop, a write failure, or a shutdown after everything was written |
| DependencyClosure.SelectedCargoPackages | scripts/generate-third-party-licenses.py:267-289 | terminates with the least set holding the workspace and closed under shipping edges, or fails only when every such closure meets malformed metadata |
| DependencyClosure.NpmRuntimePaths | scripts/generate-third-party-licenses.py:772-795 | the same for the npm lock, though the loop re-queues names already visited |
| DependencyClosure.LeastClosedIsUnique | scripts/generate-third-party-licenses.py:267-289 | the graph alone determines the result, whatever the order of popping |
| FramedConnection.Connection.ReadFrame | examples/local-control/hydra_client.py:89-117 | the receive loop over any schedule is the specified read |
| FramedConnection.ReadFollowsTheStream | examples/local-control/hydra_client.py:89-117 | for every split, a frame or an overflow is what the stream itself decides, a frame takes exactly itself and its newline, other outcomes lose nothing, and the buffer stays within the limit plus one |
| FramedConnection.OversizedIsSticky | examples/local-control/hydra_client.py:93-109 | an oversized frame fails every later read and consumes nothing |
| FramedConnection.ReadsReturnTheStreamsFrames | examples/local-control/hydra_client.py:89-117 | frames returned by successive reads, followed by those still to come, are the stream's frames, whatever the splits and timeouts |
| FramedConnection.SentMessagesAreTheFrames | examples/local-control/hydra_client.py:78-87 | a stream of sent messages has exactly those messages as its frames |
| MarkerScan.ScanBytes | scripts/verify-packaged-boundary.py:71-74 | finds a marker exactly when one occurs |
| MarkerScan.ScanMember | scripts/verify-packaged-boundary.py:354-363 | for every split into chunks, the overlapped scan finds a marker exactly when one occurs in the whole member |
| MarkerScan.OverlapDecides | scripts/verify-packaged-boundary.py:356-359 | with nothing found before, the kept overlap and the new chunk decide the longer prefix |
| DiagnosticRing.BoundDiagnostics | hydra-agent/src/device_identity.rs:1061-1080 | the two dropping loops compute the specified bound |
| DiagnosticRing.BoundedKeepsLongestSuffix | hydra-agent/src/device_identity.rs:1061-1080 | what is kept is the longest suffix within both limits |
| DiagnosticRing.BoundedFailsIff | hydra-agent/src/device_identity.rs:1061-1080 | it fails exactly when the newest event alone does not fit |
| DiagnosticRing.BoundingIsIncremental | hydra-agent/src/device_identity.rs:1061-1080 | bounding a bounded list plus one event is bounding the whole history |
| DiagnosticRing.DiagnosticsFile.AppendDiagnostic | hydra-agent/src/device_identity.rs:1008-1059 | one append, with its refusals, its reset on an unusable file, and a failure before or after the file is replaced |
| DiagnosticRing.WriterOutputIsRead | hydra-agent/src/device_identity.rs:812-893 | what an append puts in place is read back unchanged and ends with the new event, and a reported success has put it in place |
| DiagnosticRing.RingIsLongestSuffixOfHistory | hydra-agent/src/device_identity.rs:812-1080 | over any run of appends, failing before or after the replacement, from any file: the stored list is the longest suffix that fits of what the file first read as followed by every event that took effect |
| RedeemBody.ReadBounded | hydra-agent/src/device_identity.rs:1628-1663 | for every split, returns exactly the body if and only if body and declared length are within the cap and no read fails, and never retains more than the cap |
| LicenseMaterial.MaterialCollector.AddMaterial | scripts/generate-third-party-licenses.py:547-562 | one addition, refusing bad text, collisions and repeats without a change |
| LicenseMaterial.CollectionIsExact | scripts/generate-third-party-licenses.py:543-562 | no attribution is lost, and each is in exactly the group of its own bytes, once and in order |
| LicenseMaterial.CollectionSucceedsIff | scripts/generate-third-party-licenses.py:547-562 | collection succeeds if and only if all text is UTF-8 and no two materials collide or repeat |
| LicenseDocument.RenderMaterial | scripts/generate-third-party-licenses.py:1050-1068 | the appending loop renders the specified lines |
| LicenseDocument.SectionRoundTrips | scripts/generate-third-party-licenses.py:1050-1068 | reading the stated byte length after the begin line recovers every digest, attribution line and exact body, even without a final newline or with an end line inside the body |
| ArchiveOrder.CreateMembers | scripts/create-reproducible-tar.py:56-71 | the creator's members are the root and the tree sorted by relative path, for any walk order |
| ArchiveOrder.AddParents | scripts/verify-packaged-boundary.py:164-169 | climbing from one file adds exactly the directories on the way from the root to it |
| ArchiveOrder.DirectoryClosure | scripts/verify-packaged-boundary.py:162-170 | the verifier's directories are exactly the root and the ancestors of the expected files within it |
| ArchiveOrder.CanonicalMembers | scripts/verify-packaged-boundary.py:209-241 | the verifier's members are the root and the sorted expected names, for any enumeration of the set |
| ArchiveOrder.CreatorMatchesVerifierIff | scripts/verify-packaged-boundary.py:209-241 | creator and verifier list the same members, in order, with the same modes and contents, if and only if exactly the reviewed files are staged and no directory lacks one |
| ArchiveOrder.DirectoriesComeFirst | scripts/create-reproducible-tar.py:56-71 | every directory precedes what it holds |
| SubmissionGuard.LaunchDialog.StartLaunch | dashboard-ui/src/App.tsx:1328-1348 | the call up to its first await: an early save that closes unless it throws, ignored, or a new attempt |
| SubmissionGuard.LaunchDialog.OnChecked | dashboard-ui/src/App.tsx:1350-1376 | from the preflight answer to the next await or the end, the final block included |
| SubmissionGuard.LaunchDialog.OnConfirmed | dashboard-ui/src/App.tsx:1370-1395 | from the native outcome to the end, the final block included |
| SubmissionGuard.LaunchDialog.Close | dashboard-ui/src/App.tsx:1311-1326 | aborts the wait, starts a new attempt number and clears the flag |
| SubmissionGuard.EveryRunIsGuarded | dashboard-ui/src/App.tsx:1328-1395 | in every interleaving each guarded submission mutates at most once, under its own attempt and draft, and the flag is set exactly while a current attempt is in flight |
| SubmissionGuard.DismissedNeverMutates | dashboard-ui/src/App.tsx:984-1046 | after a close or a new dialog no earlier submission ever mutates, whatever answers arrive |
| SubmissionGuard.NothingElseMutatesWhilePending | dashboard-ui/src/App.tsx:1341-1346 | while an attempt is in flight no further guarded click, edit or late answer mutates |
| SubmissionGuard.EarlySaveAndAttemptBothMutateIff | dashboard-ui/src/App.tsx:1336-1343 | an early save made while an attempt is in flight: in some continuation both mutate if and only if the attempt had reached the native host or the early save threw; else the attempt never does |

## Left out

- AuthorityMigration.HomeStore.ApplyMigration: the branch where another process publishes a receipt between this call's discovery and its link is not taken inside one call; before the link the call has no effect, so in a run it is the other process's apply followed by this one, resuming.
- AuthorityMigration: the files at the ten paths keep their inode, owner, type and bytes during a run; tampering between calls shows up only as a failed check.
- AuthorityMigration: the receipt's own lock, temporary file and canonical text are one atomic publication.
- OwnerPublication.OwnerDirectory.RecoverCompletedPublication: runs without interference; what happens when other processes act between its steps is stated of the stepped recovery, in which reading the directory listing is one step and the checks that the directory itself was not swapped are left out.
- OwnerPublication: writing the temporary's bytes is one step.
- EnrollmentMigration: file ownership, mode and symbolic-link checks and the directory-identity check are part of reading a file or of the path-syntax parameter.
- EnrollmentRuns: runs hold adopt, remove and retire calls; a fresh-code enrollment while an adoption marker is live belongs to callers outside the model.
- DependencyClosure: the source, licence and ordering rules applied to the selected packages afterwards.
- DiagnosticRing: timestamps and the text of an event (its JSON length is a parameter), and a power loss that undoes a rename not yet synced.
- FramedConnection: JSON decoding of a frame and the event it becomes.
- LicenseDocument: the sorting of digests and attributions, and the sections before the material.
- ArchiveOrder: the refusal of symbolic links and special files, tar headers other than name, kind, mode and content, and gzip.
- SubmissionGuard: rendering, focus and messages; the ten-second notice changes no state the guard reads.
- Locks across processes are taken as mutual exclusion: each call is one process at a time, except in OwnerPublication.
- The Windows and macOS variants of the same helpers.
- Signatures, certificates, key encoding and JSON parsing.
- The daemon, remote control, supervision, terminal rendering and cloud client: not part of these models.
- `consistency.rs`, `health.rs`, `extension.rs`, `conn_trace.rs` and the browser certificate checks would add only members that follow from reading one body.
