# OpenBuddy: a verified model of its stateful core

This project models, in Dafny 4.11, the small stateful modules of OpenBuddy whose correctness
cannot be read off one function: the session list with its late renaming, the plugin import
transaction, shared session leases, the bounded event log, the per-kind lifecycle queues, the
tool-call index of the transcript, the mirrors in durable storage, the batching stream, the
two-tier secret store, the memory hit merger and the single-flight creation of sessions.

`dafny verify dfyconfig.toml` checks everything.

## How it is laid out

| file | what it holds |
|---|---|
| `Sessions`, `SessionInvariants`, `SidebarStore` | the sidebar list: operations, late renaming, counting laws, and the store that steps through its groups |
| `Manifest`, `ManifestMeaning`, `ImportSpec`, `ImportLaws`, `ImportStaging`, `ImportRecords`, `ImportService` | redaction, fingerprint and versions, and what they mean place by place; the file map and what a confirmation and a rollback make of it; undo laws; what is staged; what is left on record; the service with file operations that may fail |
| `Leases` | leases with generations and tombstones |
| `EventRing`, `ReplayReader` | the event log with its progress queue and cursor; the reader's tests for a gap |
| `Lifecycle` | promise tails racing against timers |
| `Transcript`, `ToolCalls`, `StreamedText`, `TranscriptMeaning`, `TranscriptStore` | the streamed transcript with the buffer text waits in; its tool-call index; what becomes of the text; what each operation writes; the store that changes it cell by cell |
| `MessageQueue`, `DraftMirror` | two mirrors in durable storage |
| `StreamTransport` | the batching message port |
| `SecretBridge` | host process and platform store, with overlapping calls |
| `MemoryMerge` | merging and ordering of search hits |
| `NewSession` | one backend call for many callers |

In every module the operations are given first as functions on a state value, then the laws are
proved about runs of those functions, and a class does what the source does step by step; each of
its methods ensures that the new state is the function of the old one. What the environment
decides is a parameter or a nondeterministic choice: times, fresh ids, whether a write, a post, a
rename or a call to the host succeeds. History (the calls of a callback, everything pushed into
the ring, the batches taken from a buffer, the calls a waiter joined) is recorded beside the state
where a law speaks of it.

## What the code does where its comments or its design say something else

- **Late renaming** cannot be told from early renaming exactly when the real id is fresh
  (`LateRenameInvisibleIffFresh`). It still shows in the key order of the draft map unless the
  re-keyed draft was the newest (`RekeyKeepsOrderIff`), and in which drafts survive the cap of 200
  if there are more than that and the re-keyed one is not among the newest 200
  (`RekeySurvivorsIff`). Several callers that share one new session each migrate their own
  provisional row, so the list repeats the session if two of them had put up a row
  (`FanOutDistinctIff`).
- **Import.** A plugin whose avatar is `plugin.json` has its raw manifest copied over the redacted
  one, and that is installed with its sensitive properties (`AvatarReplacesManifest`,
  `InstalledManifestCleanIff`). A plugin named `_meta` has the directory that contains the centre
  file: its import moves the centre into the backup and so drops all other experts
  (`ConfirmedInstallsIff`), and a recovery loses the file (`RecoveryRestoresIff`). Plugins found
  directly under `plugins/<id>` are previewed, but with resources they cannot be confirmed
  (`DirectLayout`, `DirectAgentsRefused`); without any they can (`DirectManifestAccepted`). Import
  ids collide between versions that differ in characters replaced by underscores, and between
  plugins one of whose ids continues the other's into its version; the second is then answered as
  already installed (`SharedImportIdIff`).
- **Rollback.** It restores the directory but removes the plugin's centre entry instead of
  restoring it (`UnwindingRestoresExpertsIff`). It looks neither at the status of the record nor at
  what is installed by now: rolling back the older of two imports of a plugin drops the newer
  directory and leaves the newer record installed (`OlderRollbackDropsNewer`); a record without a
  backup can be rolled back again and removes whatever is there (`RollbackWithoutBackup`); one with
  a backup removes the directory and then fails (`Rollback`, `BackupUsedUp`). When a rollback does
  restore what was there is said by `RollbackRestoresIff`. Two confirmations of one preview that
  overlap share a record whose backup is the first install, so a rollback does not bring the
  original back (`OverlappingConfirms`).
- **Reads of the centre.** A read that fails for another reason than absence counts as an empty
  centre: the confirmation then drops the other experts, if there are any (`Publish`,
  `SeenKeepsExpertsIff`), and a recovery removes the file (`Recover`). `same` looks at the manifest
  alone.
- **Event log.** Progress events re-enter the log late, so the earliest entry may be newer in
  position than in sequence, and a test on the cursor alone can pass although an event is gone
  (`LateProgressMisleads`). With a lossless event in front that test is sound, and on a log without
  gaps it is exact. What decides in general is the last lossless event evicted (`CompleteIff`).
- **Replay.** The renderer's own test does not look at how much is available, so it passes when
  nothing of a session is left (`EmptyReplayMisleads`, `AcceptedEmptyIff`); what it adds, that the
  numbers replayed leave none out, reads an event of another session in between as a gap
  (`OtherSessionReadsAsGap`). A replay that passes can miss only what is newer than all that it
  brings (`AcceptedIsCompleteIff`), and nothing if its newest event is lossless
  (`AcceptedWithLosslessTop`).
- **Leases.** Within one generation two leases of one surface share it: the first release of
  either gives it up (`ReleaseTakesEffectIff`). A reset drops live sessions without the callback.
- **Lifecycle.** Every operation settles within its own timeout when its kind uses one timeout.
  With mixed timeouts, as the legacy entry point creates on the reload queue, it is sure to do so
  exactly when nothing ahead of it in its queue has a later deadline (`OwnDeadlineIff`,
  `LegacyHeldUpByReload`).
- **Tool calls.** Editing an answer moves cards without dropping the index
  (`EditKeepsIndexIff`), after which an update can change the card of another call
  (`EditMisleadsUpdateIff`). Popping an optimistic message drops the index in mid-turn, after which
  updates of cards opened before are lost (`IndexAgreesIff`). A comment has the final update clear
  the `partial` mark; the code never clears it (`CompletionIsFrozen`).
- **Streamed text.** Text waits in a buffer and a card does not flush it, so text that arrived just
  before a card comes to stand behind it (`CardKeepsPlaceIff`, `TextBehindCard`); a comment promises
  arrival order for text and thoughts only. Whether a message is streaming is looked up once per
  chunk, so a chunk of several parts that arrives while none is leaves one message per part, all
  but the last empty; a history loaded for another session takes the waiting text of this one
  (`TextLostIff`).
- **Drafts.** A comment says that an oversize draft stays usable in memory; with at most 200
  drafts the writer deletes it from the live map (`WriteStored`). A flush after the disposer ran
  writes the store's present map, which need not be the text that was scheduled (`Flush`).
- **Secrets.** The five seconds of backoff never come to bear (`BackoffDecidesNothing`). After a
  failure the host is open again before it is attached anew exactly when a call begun before the
  failure succeeds after it (`ReopenedIff`, `LateSuccessReopens`); until then it is sent nothing but
  the legacy values of reads begun before, the failed one included (`AskedAgainIff`,
  `FailedReadStillWrites`). Only with no such call under way does a failure last until the attach
  (`FailureLastsUntilAttach`). A secret deleted at the host comes back from the platform store if
  that has it (`DeletedStaysDeletedIff`); one stored during an outage is shadowed by an older host
  value (`StoredDuringOutageIff`). A put that the host carries out before the write of a migration
  is lost to the legacy value (`MigrationOverwritesIff`).
- **Memory hits.** A hit that the semantic list repeats is tagged `both` although the full-text
  list does not have it (`TagMeaning`). Without the semantic adapter the hits keep the order they
  came in, which need not be that of the scores.
- **New sessions.** A backend factory that throws instead of returning a promise leaves the record
  behind: later callers join it and wait for ever (`ThrowWedges`, `RunKeepsValid`). A caller that
  joins gets the session of the first caller, whatever directory and model it asked for
  (`OwnArgumentsIff`).

## Model

| member | source | states |
|---|---|---|
| Sessions.UpsertCommutes | src/stores/sessions-store.ts:195-256 | an upsert commutes with re-keying: same row, same group, same position, whichever of the five routes it takes |
| Sessions.RemoveCommutes | src/stores/sessions-store.ts:258-299 | a removal commutes with re-keying, node count, draft and focus included |
| Sessions.MigrateCommutes | src/stores/sessions-store.ts:301-337 | two migrations of different sessions commute, also when the first ends where the second starts |
| Sessions.StepKeepsFresh | src/stores/sessions-store.ts:164-337 | an id that no row, draft or focus carries stays unused by operations that do not name it |
| Sessions.LateRenameInvisible | src/stores/sessions-store.ts:164-337 | running any operations and then migrating gives the same state as migrating first and running them under the new id |
| Sessions.LateRenameInvisibleIffFresh | src/stores/sessions-store.ts:301-337 | late renaming is invisible to all runs if and only if the new id is fresh; removal tells the orders apart otherwise |
| SessionInvariants.UpsertTotal | src/stores/sessions-store.ts:195-256 | an upsert adds one row exactly for an unseen session that has a place, and no row of any other session |
| SessionInvariants.RemoveTotal | src/stores/sessions-store.ts:258-299 | a removal leaves no row of the session in any group, and all rows of the others |
| SessionInvariants.MigrateTotal | src/stores/sessions-store.ts:301-337 | a migration moves all rows of the old id to the new one, which keeps its own |
| SessionInvariants.UpsertTouchesOnlyItsRow | src/stores/sessions-store.ts:195-256 | other rows, their order and group, drafts, counts and focus are unchanged by an upsert |
| SessionInvariants.UpsertWritesPatch | src/stores/sessions-store.ts:195-256 | a known session keeps what the patch does not name; an unseen one gets the defaults and a timestamp, or is not inserted when its node is not loaded |
| SessionInvariants.UnseenGoesToInbox | src/stores/sessions-store.ts:217-234 | an unseen session without a directory or of the home directory is put on top of the tasks, with title, directory and time filled in where the patch is silent; no node changes |
| SessionInvariants.UnseenGoesToNode | src/stores/sessions-store.ts:236-251 | an unseen session of a loaded node is put on top of that node's list, filled in likewise; the tasks and all other nodes are unchanged |
| SessionInvariants.UnseenOfClosedNode | src/stores/sessions-store.ts:253-254 | an unseen session of a node that is not loaded changes nothing |
| SessionInvariants.KnownStaysInPlace | src/stores/sessions-store.ts:199-215 | an upsert of a known session moves no row |
| SessionInvariants.WithoutFirst | src/stores/sessions-store.ts:260-270 | a removal drops a row exactly if it is the session's, and keeps the others in order |
| SessionInvariants.RemoveForgets | src/stores/sessions-store.ts:283-299 | draft and focus of the session go, all other drafts and another focus stay |
| SessionInvariants.MigrateInPlace | src/stores/sessions-store.ts:301-337 | every row stays where it is with its fields, the draft moves to the new id and the focus follows |
| SessionInvariants.DraftsReadBack | src/stores/sessions-store.ts:164-182 | a draft is read back as set, a cleared one as empty, and no other draft changes |
| SessionInvariants.StepWellFormedIff | src/stores/sessions-store.ts:145-337 | an operation keeps session ids distinct over all groups and drafts non-empty exactly when it is legal: no migration onto a listed id, no loaded list that repeats a session or has one of another group |
| SessionInvariants.RunKeepsWellFormed | src/stores/sessions-store.ts:146-337 | every run of legal operations keeps ids distinct and drafts non-empty |
| SessionInvariants.RemoveLowersHolder | src/stores/sessions-store.ts:268-285 | a removal lowers by one, floored at zero, exactly the nodes whose cache held the row |
| SessionInvariants.FanOutDistinctIff | src/lib/agent/new-session-flow.ts:145-146 | when all callers of one new session have migrated, it is listed once exactly if at most one had a row |
| SidebarStore.SessionsStore.Upsert | src/stores/sessions-store.ts:195-256 | the search through both groups and the routing by directory amount to the specified upsert |
| SidebarStore.SessionsStore.Remove | src/stores/sessions-store.ts:258-299 | the loop over the caches, which notices the removal by length, amounts to the specified removal |
| SidebarStore.SessionsStore.MigrateSession | src/stores/sessions-store.ts:301-337 | the loop with its `touched` flag amounts to the specified migration; untouched means unchanged |
| SidebarStore.SessionsStore.SetDraft | src/stores/sessions-store.ts:164-175 | an empty text removes the draft, any other stores it |
| SidebarStore.SessionsStore.ClearDraft | src/stores/sessions-store.ts:176-182 | the draft is gone, all else is unchanged |
| SidebarStore.SessionsStore.RenameDraft | src/stores/sessions-store.ts:184-193 | the draft moves to the new key, over one that may be there |
| SidebarStore.SessionsStore.SetCurrent | src/stores/sessions-store.ts:158 | only the focus changes |
| Manifest.RedactCleans | electron/main/workbuddy-import.ts:117-121 | no sensitive key is left at any depth |
| Manifest.RedactFixpointIff | electron/main/workbuddy-import.ts:117-121 | redaction leaves a value alone exactly when it holds no sensitive key |
| Manifest.RedactIdempotent | electron/main/workbuddy-import.ts:117-121 | redacting twice is redacting once |
| Manifest.FingerprintStable | electron/main/workbuddy-import.ts:111-115 | the stored manifest carries the fingerprint of its source and has that fingerprint itself |
| Manifest.StampedKeeps | electron/main/workbuddy-import.ts:277-290 | apart from the fingerprint, the stored manifest has exactly the source's non-sensitive properties, redacted |
| Manifest.CompareVersion | electron/main/workbuddy-import.ts:139-143 | the sign of the result tells which version is ahead in the first component in which they differ |
| Manifest.NewerTransitive | electron/main/workbuddy-import.ts:139-143 | being newer is transitive |
| Manifest.SameIffSameImport | electron/main/workbuddy-import.ts:232-233 | a preview says `same` exactly for manifests that redact to the installed one |
| Manifest.UpgradeIffDowngradeBack | electron/main/workbuddy-import.ts:233 | between different imports, upgrade one way is downgrade the other, and equal versions conflict |
| ManifestMeaning.RedactReaches | electron/main/workbuddy-import.ts:117-121 | what stands at a place outside all secrets stands there still, scalars unchanged; nothing can be reached through a secret |
| ManifestMeaning.SensitiveIff | electron/main/workbuddy-import.ts:11 | a key is sensitive exactly when, in lower case, it contains one of the secret words, compounds with or without a separator included |
| ManifestMeaning.SplitDotted | electron/main/workbuddy-import.ts:136 | a version is split at its points and nowhere else |
| ManifestMeaning.PartsAreNumbers | electron/main/workbuddy-import.ts:136 | a part that starts with a number counts as that number, whatever follows, and others as zero |
| ManifestMeaning.RankOfDotted | electron/main/workbuddy-import.ts:135-137 | the rank of a dotted version is the numbers between its points |
| ManifestMeaning.Unversioned | electron/main/workbuddy-import.ts:233 | over an import without a version another manifest conflicts; one without a version of its own counts as 0.0.0 |
| ManifestMeaning.BlockedOrNew | electron/main/workbuddy-import.ts:233 | errors block, and where nothing is installed a preview is new |
| ImportSpec.MarketplaceLayout | electron/main/workbuddy-import.ts:247-254 | marketplace resources keep their place below the plugin directory, if no segment is empty or `..` |
| ImportSpec.DirectLayout | electron/main/workbuddy-import.ts:247-254 | exactly when resources of a plugin in the direct layout are accepted, and that they then lose their place |
| ImportSpec.ExpertEntry | electron/main/workbuddy-import.ts:314 | the centre entry of a plugin is one that later imports and rollbacks of the plugin recognise |
| ImportStaging.ImportedPathIff | electron/main/workbuddy-import.ts:247-254 | exactly which resource paths have a place, and which place |
| ImportStaging.StageableIff | electron/main/workbuddy-import.ts:271-286 | the previewed files are staged exactly when each has a place and is as it was previewed, and none stands where another needs a directory |
| ImportStaging.StagedTreeIff | electron/main/workbuddy-import.ts:271-297 | the staging is complete exactly when moreover the manifest is an object and no file stands in the way of the two places written last, such as an avatar named `_meta` |
| ImportStaging.DirectAgentsRefused | electron/main/workbuddy-import.ts:158-159 | an agent of a plugin in the direct layout has no place and lets staging fail; below the id "plugins" it gets another place than in the plugin |
| ImportStaging.DirectManifestAccepted | electron/main/workbuddy-import.ts:158-159 | a plugin in the direct layout without resources is staged by its manifest alone |
| ImportStaging.StagedFilesAt | electron/main/workbuddy-import.ts:271-286 | at every place stands what the last file staged there brings, and nothing stands elsewhere |
| ImportStaging.StagedFilesHold | electron/main/workbuddy-import.ts:271-286 | every previewed file is staged with the content that was hashed, unless a later file of another kind or path takes its place |
| ImportStaging.StagedTreeHolds | electron/main/workbuddy-import.ts:271-297 | the whole staged tree: the stamped manifest in both places, the plugin's own centre, the source files everywhere else |
| ImportStaging.InstalledManifestCleanIff | electron/main/workbuddy-import.ts:277-290 | the installed manifest holds nothing sensitive exactly when the last file staged as the manifest is the manifest itself, or a resource without anything sensitive |
| ImportStaging.AvatarReplacesManifest | electron/main/workbuddy-import.ts:226-229 | an avatar named `plugin.json` installs the manifest with its sensitive properties |
| ImportStaging.ConfirmedPreviewsSame | electron/main/workbuddy-import.ts:232-233 | after a confirmed import a preview says `same` exactly for manifests that redact to the one staged last, so always for its unchanged source |
| ImportLaws.FreshDrawsReady | electron/main/workbuddy-import.ts:260-299 | with import ids not yet installed and all different, and backup names not taken, every confirmation of a stack goes through |
| ImportLaws.ConfirmedInstalls | electron/main/workbuddy-import.ts:298-319 | the plugin directory is the staged tree; the centre lists the plugin once, after all other experts of the centre found after the renames, in order |
| ImportLaws.ConfirmedInstallsIff | electron/main/workbuddy-import.ts:298-319 | all other experts are kept, and the directory is exactly the staged tree, if and only if the directory does not contain the centre file, or brings one that makes no difference |
| ImportLaws.SeenKeepsExpertsIff | electron/main/workbuddy-import.ts:312-316 | a confirmation keeps the other experts if and only if the centre could be read or there were none |
| ImportLaws.RollbackUndoes | electron/main/workbuddy-import.ts:338-353 | the first rollback of an import puts every file back, journals and centre aside, whatever happened to those in between |
| ImportLaws.RollbackRestoresIff | electron/main/workbuddy-import.ts:338-353 | at any later time a rollback restores the files from before the import if and only if the files elsewhere are as before and the backup is intact |
| ImportLaws.OlderRollbackDropsNewer | electron/main/workbuddy-import.ts:342-343 | rolling back the older of two imports of a plugin puts the directory from before both in place of the newer one, which stays on record as installed |
| ImportLaws.OverlappingConfirms | electron/main/workbuddy-import.ts:262-320 | after two overlapping confirmations of one preview a rollback leaves the first install, and restores what was there before exactly if that was the same |
| ImportLaws.RollbackWithoutBackup | electron/main/workbuddy-import.ts:342-351 | a record without a backup, of whatever status, removes whatever is installed by then and succeeds |
| ImportLaws.UnwindingRestores | electron/main/workbuddy-import.ts:338-353 | any stack of imports of any plugins, rolled back in reverse order, leaves every other file as it was, absent directories included |
| ImportLaws.UnwindingExperts | electron/main/workbuddy-import.ts:344-349 | unwinding leaves the experts of no imported plugin, up to the first that contains the centre file, and all others in order |
| ImportLaws.UnwindingRestoresExpertsIff | electron/main/workbuddy-import.ts:344-349 | undo restores the list of experts exactly when none of those plugins was listed before |
| ImportLaws.BackupUsedUp | electron/main/workbuddy-import.ts:342-343 | after its rollback a record with a backup no longer finds it |
| ImportLaws.RecoveryRestoresIff | electron/main/workbuddy-import.ts:321-331 | a successful recovery restores every file exactly when the plugin's directory does not contain the centre file, or staged the same one |
| ImportRecords.ConfirmRecords | electron/main/workbuddy-import.ts:317-319 | the record of a confirmation says installed, names plugin and files, and a backup exactly if there was a directory |
| ImportRecords.RollbackRecords | electron/main/workbuddy-import.ts:350-351 | after a rollback the record says so, with or without a backup, and is otherwise unchanged |
| ImportRecords.RollbackLeavesElsewhere | electron/main/workbuddy-import.ts:338-353 | files outside the directory, the backup, the centre and the record are not touched |
| ImportRecords.ReadyAgain | electron/main/workbuddy-import.ts:256-332 | confirmed and rolled back, an import can be confirmed again with any backup name not taken before |
| ImportRecords.CentreKeepsOthers | electron/main/workbuddy-import.ts:312-316 | a confirmation sets categories and experts of the centre and keeps all its other properties |
| ImportRecords.CentreRolledBackKeepsOthers | electron/main/workbuddy-import.ts:345-349 | a rollback changes nothing of the centre but the experts, and a centre without a list not at all |
| ImportRecords.OtherExpertsFirst | electron/main/workbuddy-import.ts:313 | an expert is dropped exactly if it is an object naming the plugin, and the others keep their order |
| ImportRecords.OwnCentreLists | electron/main/workbuddy-import.ts:294-297 | the centre staged with a plugin lists it alone |
| ImportRecords.EntryShows | electron/main/workbuddy-import.ts:314 | every property of a centre entry: id, plugin and name, category, description, team or expert labels, lead agent |
| ImportRecords.ConfirmableIff | electron/main/workbuddy-import.ts:258-259 | a preview can be confirmed for ten minutes, without errors, unless blocked, a downgrade or a conflict |
| ImportRecords.SanitizedIsSafe | electron/main/workbuddy-import.ts:260 | a sanitized version holds only safe characters and changes exactly where the version has others |
| ImportRecords.TransactionOfPreview | electron/main/workbuddy-import.ts:260-317 | what a confirmation puts on record of a preview: plugin, id, the paths of its files in order, its entry |
| ImportService.SanitizedSameIff | electron/main/workbuddy-import.ts:260 | two versions sanitize alike exactly when they differ at most in characters that become underscores |
| ImportService.SharedImportIdIff | electron/main/workbuddy-import.ts:260 | exactly when two previews share an import id |
| ImportService.SharedIdIsInstalled | electron/main/workbuddy-import.ts:262-263 | once the one is installed the other is on record as installed too |
| ImportService.ImportService.Stage | electron/main/workbuddy-import.ts:270-297 | staging touches only its directory and leaves the complete staged tree there when it succeeds |
| ImportService.ImportService.SwapIn | electron/main/workbuddy-import.ts:298-308 | both renames happened, or everything outside the staging directory is as before |
| ImportService.ImportService.Publish | electron/main/workbuddy-import.ts:309-319 | centre and journal are written as specified from what was read; the other experts are kept exactly if the centre was read or had none; nothing else changes even on failure |
| ImportService.ImportService.Recover | electron/main/workbuddy-import.ts:321-331 | renames are taken back and the centre is as it was read after them |
| ImportService.ImportService.Confirm | electron/main/workbuddy-import.ts:256-332 | all or nothing under any failures whose recovery succeeds: the whole effect of the confirmation, or the files as they were, the journal file aside; what is installed after a failed read of the centre is exact too |
| ImportService.ImportService.Rollback | electron/main/workbuddy-import.ts:338-353 | a clean rollback is the specified one, whatever the status of the record; with the backup missing the directory is lost and the call fails |
| Leases.RunKeepsValid | electron/main/agent/multi-surface-session.ts:20-78 | in every run each generation given out is live or has ended, never both, and the callback ran once for each that ended by disposal |
| Leases.NewRecordIsNewer | electron/main/agent/multi-surface-session.ts:26-31 | every new record has a generation above all earlier ones of its session, over resets too |
| Leases.EndedLeaseIsFenced | electron/main/agent/multi-surface-session.ts:56-73 | once its generation has ended, a lease can never change the registry again, after any run |
| Leases.ReconnectAndResetEnd | electron/main/agent/multi-surface-session.ts:40-55 | a reconnect ends the generation before it, a reset every live one |
| Leases.ReleaseTakesEffectIff | electron/main/agent/multi-surface-session.ts:56-73 | a release changes the registry exactly while its generation is live and its surface held |
| Leases.DisposalIffLastSurface | electron/main/agent/multi-surface-session.ts:62-71 | the callback runs exactly when the last surface of a session is released |
| Leases.DisposedOnce | electron/main/agent/multi-surface-session.ts:62-71 | over any run the callback runs at most once per session and generation |
| Leases.DisposedUntilReset | electron/main/agent/multi-surface-session.ts:24 | a disposed session stays disposed until a reset |
| Leases.StepMembers | electron/main/agent/multi-surface-session.ts:20-78 | a granted lease adds its surface and removes none, a release takes one away, a reconnection all others, a reset all |
| Leases.HeldIffJoinedSince | electron/main/agent/multi-surface-session.ts:20-78 | over every run a surface holds a session exactly when it joined it and has not left since |
| Leases.CallbackIffAllLeft | electron/main/agent/multi-surface-session.ts:62-71 | from the start on, the callback runs exactly when a release makes the last of all surfaces that joined leave |
| Leases.OthersAlone | electron/main/agent/multi-surface-session.ts:20-73 | operations on one session leave all others alone |
| Leases.GrantedIff | electron/main/agent/multi-surface-session.ts:21-24 | exactly when an acquisition and a reconnection are granted |
| Leases.ReleaseRefusedIff | electron/main/agent/multi-surface-session.ts:57-61 | exactly why a release is refused |
| Leases.TrimmedMeaning | electron/main/agent/multi-surface-session.ts:21 | names are trimmed of the blanks around them and of nothing else |
| Leases.SessionRegistry.Acquire | electron/main/agent/multi-surface-session.ts:20-39 | outcome and new registry of an acquisition, refusals included |
| Leases.SessionRegistry.Reconnect | electron/main/agent/multi-surface-session.ts:40-55 | outcome and new registry of a reconnection |
| Leases.SessionRegistry.Release | electron/main/agent/multi-surface-session.ts:56-73 | outcome and new registry of a release, with its error codes |
| Leases.SessionRegistry.ResetAll | electron/main/agent/multi-surface-session.ts:78 | sessions and tombstones are gone, generations stay |
| Leases.LeaseHandle.Release | electron/main/agent/multi-surface-session.ts:33-38 | the handle passes on one release, with its own generation, and refuses further ones |
| EventRing.RunKeepsValid | electron/main/agent/pi-event-bridge.ts:137-286 | the ring is always the last pushes, and lossless events stand in strictly increasing sequence |
| EventRing.IncreasingWithoutProgress | electron/main/agent/pi-event-bridge.ts:281-286 | without progress events the ring is strictly increasing and is the last `maxEntries` pushes |
| EventRing.CompleteIff | electron/main/agent/pi-event-bridge.ts:202-247 | no lossless event after the reader's position is missing if and only if the last lossless one evicted was not after it |
| EventRing.CursorGuaranteesComplete | electron/main/agent/pi-event-bridge.ts:221-247 | if the first lossless event held is at most one past the reader's position, none after it is missing, whatever late progress stands in front |
| EventRing.LooksCompleteIsCursorTest | electron/main/agent/pi-event-bridge.ts:221-247 | with a lossless event in front, that is a test on the cursor: something available, from the next event on |
| EventRing.CompleteWithoutProgress | electron/main/agent/pi-event-bridge.ts:202-247 | without progress events the cursor test makes the snapshot everything recorded since, once each and in order |
| EventRing.DenseCursorExact | electron/main/agent/pi-event-bridge.ts:221-247 | on a log without gaps the cursor test holds if and only if nothing is missing |
| EventRing.LateProgressMisleads | electron/main/agent/pi-event-bridge.ts:171-175 | a run in which a late progress event makes the cursor test pass although an event is gone |
| EventRing.EventIsRecorded | electron/main/agent/pi-event-bridge.ts:137-169 | a session's event gets the next number and the present generation; progress waits, all else is pushed at once |
| EventRing.AppendIsPushed | electron/main/agent/pi-event-bridge.ts:182-187 | an appended record is dropped exactly when of an earlier generation; the counter never goes back |
| EventRing.NewestProgressWaits | packages/runtime/openbuddy-plugin-host/src/bounded-event-queue.ts:53-95 | the newest progress of a session takes the place of the one waiting; of a full queue the oldest gives way; all others stay |
| EventRing.SnapshotHolds | electron/main/agent/pi-event-bridge.ts:202-213 | exactly which records a query without a limit returns |
| EventRing.LimitKeepsNewest | electron/main/agent/pi-event-bridge.ts:204-211 | a limit keeps as many of the newest as it says, at least one |
| EventRing.CursorMeaning | electron/main/agent/pi-event-bridge.ts:221-247 | the cursor names the first and last replayable record, or nothing and the counter |
| EventRing.AdvanceHides | electron/main/agent/pi-event-bridge.ts:190-196 | a new generation hides the records of the one before |
| EventRing.ClearStartsOver | electron/main/agent/pi-event-bridge.ts:270-274 | cleared, the log is empty and counts from one; at its end the generation stays |
| ReplayReader.DetectCoverageGap | src/lib/agent/pi-event-replay.ts:103-130 | the reader reports a gap exactly when the cursor starts too late or the replayed numbers leave one out |
| ReplayReader.EvictionGapIff | src/lib/agent/pi-event-replay.ts:79-88 | with a lossless event in front the reader's cursor test is the one that guarantees completeness, position zero aside |
| ReplayReader.RunKeepsNumbered | electron/main/agent/pi-event-bridge.ts:137-196 | in every run whose appended records bring new numbers no two records, waiting ones included, carry the same |
| ReplayReader.AcceptedIsCompleteIff | src/lib/agent/pi-event-replay.ts:79-130 | a replay without a gap has brought every lossless event after the position if and only if it reaches as far as each of them |
| ReplayReader.AcceptedWithLosslessTop | src/lib/agent/pi-event-replay.ts:79-130 | a replay without a gap whose newest event is lossless has brought everything |
| ReplayReader.AcceptedEmptyIff | src/lib/agent/pi-event-replay.ts:79-88 | a replay that brings nothing is complete if and only if the last lossless event evicted is not after the position |
| ReplayReader.EmptyReplayMisleads | src/lib/agent/pi-event-replay.ts:83-85 | the reader finds no gap although an event is gone, for nothing of the session is left |
| ReplayReader.OtherSessionReadsAsGap | src/lib/agent/pi-event-replay.ts:117-128 | a complete replay in which the reader finds a gap, for another session's event lies in between |
| EventRing.EventBridge.AppendFromSession | electron/main/agent/pi-event-bridge.ts:137-169 | the record gets the next sequence; progress is queued, all else pushed |
| EventRing.EventBridge.AppendRecord | electron/main/agent/pi-event-bridge.ts:182-187 | stale records are dropped, others pushed under their own sequence |
| EventRing.EventBridge.FlushPendingProgress | electron/main/agent/pi-event-bridge.ts:171-175 | the queue is emptied into the ring in order |
| EventRing.EventBridge.Snapshot | electron/main/agent/pi-event-bridge.ts:202-213 | after a flush, the last matching records up to the limit |
| EventRing.EventBridge.DescribeCursor | electron/main/agent/pi-event-bridge.ts:221-247 | after a flush, first and last replayable sequence and their number |
| EventRing.EventBridge.AdvanceGeneration | electron/main/agent/pi-event-bridge.ts:190-196 | one generation on, refused exactly at the largest safe integer |
| EventRing.EventBridge.ClearAll | electron/main/agent/pi-event-bridge.ts:270-274 | entries, queue and sequence start over; the generation stays |
| Lifecycle.KindsAreIndependent | electron/main/agent/lifecycle-tail.ts:40-65 | the schedule of one kind is that of its own submissions alone |
| Lifecycle.StartsInOrder | electron/main/agent/lifecycle-tail.ts:59-63 | operations of a kind start in enqueue order, each after all earlier ones have settled |
| Lifecycle.OverlapOnlyAfterTimeout | electron/main/agent/lifecycle-tail.ts:59-63 | two operations of a kind run at once only if the earlier one was abandoned by its timer |
| Lifecycle.RejectionsDoNotMatter | electron/main/agent/lifecycle-tail.ts:59-63 | all times are as if nothing had been rejected |
| Lifecycle.SlotFacts | electron/main/agent/lifecycle-tail.ts:55-63 | start, settling and outcome of every operation: its own result if it settles at once or in time, a timeout exactly otherwise |
| Lifecycle.IdleQueueIsFair | electron/main/agent/lifecycle-tail.ts:55-63 | on an idle queue an operation shorter than its timeout ends when it ends, with its own result |
| Lifecycle.DefaultTimeouts | electron/main/agent/lifecycle-tail.ts:19-38 | the timeouts in milliseconds |
| Lifecycle.SettlesByLatestDeadline | electron/main/agent/lifecycle-tail.ts:48-65 | an operation settles no later than the latest deadline among it and its predecessors, however many hang |
| Lifecycle.HangingMeetsBound | electron/main/agent/lifecycle-tail.ts:48-65 | the bound is sharp: when all operations hang, each settles exactly at it |
| Lifecycle.SettlesInOwnTime | electron/main/agent/lifecycle-tail.ts:36-38 | with one timeout per kind every operation settles within it, counted from its own enqueueing |
| Lifecycle.OwnDeadlineIff | electron/main/agent/lifecycle-tail.ts:48-65 | told from enqueue times and timeouts alone: an operation is sure to meet its own deadline, whatever the operations do, if and only if none ahead of it has a later one |
| Lifecycle.LegacyHeldUpByReload | electron/main/agent/lifecycle-tail.ts:72-74 | a legacy operation behind a hanging reload settles after thirty seconds instead of five |
| Lifecycle.LifecycleQueues.Enqueue | electron/main/agent/lifecycle-tail.ts:48-65 | start, settling and outcome of the race, and the new tail of the kind alone |
| Lifecycle.LifecycleQueues.EnqueueByKind | electron/main/agent/lifecycle-tail.ts:36-38 | the same with the timeout of the kind |
| Lifecycle.LifecycleQueues.EnqueueLegacy | electron/main/agent/lifecycle-tail.ts:72-74 | the reload queue with five seconds |
| ToolCalls.ScanMeaning | src/hooks/useAgentSession.ts:1035-1086 | the scan the index replaces finds the latest card of a tool call, or there is none |
| ToolCalls.RunKeepsValid | src/hooks/useAgentSession.ts:980-1086 | in every legal run each index entry points at the latest card of its tool call |
| ToolCalls.IndexRefinesScan | src/hooks/useAgentSession.ts:980-1086 | over every run of a growing transcript, updating through the index is updating by full scan |
| ToolCalls.IndexAgreesIff | src/hooks/useAgentSession.ts:1035-1086 | one indexed update is the scanned one exactly when the call is indexed, has no card, or the update brings nothing new for its latest card |
| ToolCalls.CompletionIsFrozen | src/hooks/useAgentSession.ts:1035-1086 | a completion time once set never changes, cards stay in place, and a partial mark is never cleared |
| ToolCalls.EditKeepsIndexIff | packages/ui/openbuddy-ui-state/src/session-store.ts:718-735 | editing an answer keeps the index right exactly when no text stood before an indexed card of that message |
| ToolCalls.EditMisleadsUpdateIff | packages/ui/openbuddy-ui-state/src/session-store.ts:725-732 | after an edit an update changes the card of another call exactly when that card has slid into the place the index still names |
| StreamedText.AcceptedIsOneShape | src/hooks/useAgentSession.ts:118-127 | of a chunk exactly the parts of the shape the channel has locked onto are taken, and the lock never changes within a turn |
| StreamedText.DoubledTakenOnce | src/hooks/useAgentSession.ts:118-127 | a bridge that sends every text in both shapes is heard once |
| StreamedText.RunKeepsSpoken | packages/ui/openbuddy-ui-state/src/session-store.ts:388-426 | while a message streams, its text of each kind, written and waiting, is what it had and what arrived, in order, whatever else happens |
| StreamedText.AnswerIsComplete | packages/ui/openbuddy-ui-state/src/session-store.ts:751-807 | a finished answer holds exactly the text of each kind that arrived for it, in order, whatever the moments of the flushes |
| StreamedText.CardKeepsPlaceIff | src/hooks/useAgentSession.ts:1022-1032 | a card comes before the text that waits; text keeps its place before a later card if and only if none waits |
| StreamedText.TextBehindCard | src/hooks/useAgentSession.ts:1022-1032 | text and a card in one batch: the card ends up first |
| StreamedText.TextLostIff | src/hooks/useAgentSession.ts:885-948 | exactly when a step of a growing transcript loses text: a begin or a foreign history while text waits, text without a message, a chunk of several parts with none streaming |
| TranscriptMeaning.UpdateWrites | src/hooks/useAgentSession.ts:1051-1084 | an update of an indexed call, field by field of its latest card; every other field and cell is unchanged |
| TranscriptMeaning.UnknownUpdateIgnored | src/hooks/useAgentSession.ts:1052-1053 | an update of a call that is not indexed changes nothing |
| TranscriptMeaning.CallBecomesCard | src/hooks/useAgentSession.ts:1022-1032 | the card holds all the call brings, comes last among the written parts, and is the indexed one |
| TranscriptMeaning.CallOpensMessage | src/hooks/useAgentSession.ts:996-1002 | without a streaming message the card opens one |
| TranscriptMeaning.BeginOpens | packages/ui/openbuddy-ui-state/src/session-store.ts:737-749 | a new message is empty, incomplete, last, and the one that streams |
| TranscriptMeaning.LastIncompleteMeaning | packages/ui/openbuddy-ui-state/src/session-store.ts:437-447 | the message found when none streams is the assistant's last incomplete one |
| TranscriptMeaning.EndCompletes | packages/ui/openbuddy-ui-state/src/session-store.ts:765-850 | an end completes the streaming, or else that message, and no other; a placeholder shows only in an empty one |
| TranscriptMeaning.EndOfNothing | packages/ui/openbuddy-ui-state/src/session-store.ts:769-777 | with no message to end the messages are unchanged |
| TranscriptMeaning.PushedIsPopped | packages/ui/openbuddy-ui-state/src/session-store.ts:610-664 | the user's message comes last and complete, and popping it brings back the list of before |
| TranscriptMeaning.HistoryReplaces | packages/ui/openbuddy-ui-state/src/session-store.ts:530-578 | a history replaces the messages and ends stream, index and buffer; another session's takes only the buffer |
| TranscriptMeaning.TurnReopensShapes | src/hooks/useAgentSession.ts:502-506 | with a new turn the channels accept any shape again |
| TranscriptMeaning.ExtendedMeaning | packages/ui/openbuddy-ui-state/src/session-store.ts:394-401 | text is added to a last part of its kind and opens one behind any other |
| TranscriptMeaning.KindSwitchWrites | packages/ui/openbuddy-ui-state/src/session-store.ts:751-763 | text of the other kind has what waits written first; text of the same kind joins it |
| TranscriptMeaning.EditReads | packages/ui/openbuddy-ui-state/src/session-store.ts:718-735 | an edited answer reads as the new text, with its thoughts as they were |
| TranscriptMeaning.EditKeepsParts | packages/ui/openbuddy-ui-state/src/session-store.ts:727 | the other parts of an edited answer stay in their order |
| TranscriptStore.TranscriptStore.AcceptTextShape | src/hooks/useAgentSession.ts:118-127 | the first shape is accepted and locked, later ones exactly if they are that shape |
| TranscriptStore.TranscriptStore.OnChunk | src/hooks/useAgentSession.ts:885-948 | the parts of a chunk are taken one by one, each against the lookup made at its start |
| TranscriptStore.TranscriptStore.OnToolCall | src/hooks/useAgentSession.ts:980-1034 | a card is appended to the written parts of the streaming message, opened if needed, and indexed |
| TranscriptStore.TranscriptStore.OnToolCallUpdate | src/hooks/useAgentSession.ts:1035-1086 | exactly the indexed cell is patched |
| TranscriptStore.TranscriptStore.ApplyBatch | src/hooks/useAgentSession.ts:858-1086 | a batch is its updates applied in order, the buffer included |
| TranscriptStore.TranscriptStore.AppendStreamingDelta | packages/ui/openbuddy-ui-state/src/session-store.ts:751-763 | text joins the buffer, after a flush if that holds the other kind, and a flush is scheduled |
| TranscriptStore.TranscriptStore.FlushStreamingBuffer | packages/ui/openbuddy-ui-state/src/session-store.ts:420-426 | the buffer is written and empty |
| TranscriptStore.TranscriptStore.MergeStreamingDelta | packages/ui/openbuddy-ui-state/src/session-store.ts:388-418 | flushed text goes to the last part of its kind or opens a new one |
| TranscriptStore.TranscriptStore.BeginStreamingMessage | packages/ui/openbuddy-ui-state/src/session-store.ts:737-749 | waiting text is discarded, an empty assistant message is appended and becomes the streaming one |
| TranscriptStore.TranscriptStore.EndStreamingMessage | packages/ui/openbuddy-ui-state/src/session-store.ts:765-850 | the buffer is written, then the streaming or else the last incomplete message is completed; an empty abandoned one gets a placeholder |
| TranscriptStore.TranscriptStore.PushOptimisticUser | packages/ui/openbuddy-ui-state/src/session-store.ts:610-650 | the user's message is appended and remembered |
| TranscriptStore.TranscriptStore.PopOptimisticUser | packages/ui/openbuddy-ui-state/src/session-store.ts:652-664 | it is taken out again and the index dropped |
| TranscriptStore.TranscriptStore.EditAssistantMessage | packages/ui/openbuddy-ui-state/src/session-store.ts:718-735 | the text parts give way to one at the end, the index stays as it is |
| TranscriptStore.TranscriptStore.LoadHistoryMessages | packages/ui/openbuddy-ui-state/src/session-store.ts:530-578 | the buffer is discarded; for the session in focus messages, stream and index are replaced |
| MessageQueue.MirroredUnlessBehind | src/stores/message-queue-store.ts:74-156 | after any run with lost writes a session's stored queue is the one in memory, unless the last write for it was lost |
| MessageQueue.MirrorIsExact | src/stores/message-queue-store.ts:74-156 | when writes arrive the stored queues equal those in memory, and no empty queue is kept |
| MessageQueue.RestartRestores | src/stores/message-queue-store.ts:163-180 | hydrating an empty store after any run restores every queue |
| MessageQueue.LateHydrationIff | src/stores/message-queue-store.ts:163-180 | hydrating from an older listing keeps the mirror exact if and only if no listed queue has changed since |
| MessageQueue.DrainedIsActive | src/stores/message-queue-store.ts:135-146 | taking the next item again and again yields the active items in order and leaves the paused ones in order |
| MessageQueue.MovedMeaning | src/stores/message-queue-store.ts:115-126 | a moved item lands at its target, the others keep their order, and moving it back undoes it |
| MessageQueue.EnqueuedLast | src/stores/message-queue-store.ts:86-95 | an item queued comes last |
| MessageQueue.ArrivalOrder | src/stores/message-queue-store.ts:86-146 | however queueing and taking alternate, items are taken in the order in which they came |
| MessageQueue.EditMeaning | src/stores/message-queue-store.ts:96-134 | edit and pause change one field of the item and nothing else, and apply exactly if it is there |
| MessageQueue.RemoveMeaning | src/stores/message-queue-store.ts:104-114 | removing drops the item and keeps the others in order |
| MessageQueue.ClearAndTake | src/stores/message-queue-store.ts:135-154 | clearing empties; taking is refused exactly when nothing is active |
| MessageQueue.ReorderMeaning | src/stores/message-queue-store.ts:115-126 | a move goes to the nearest place there is, and is refused from outside and onto its own place |
| MessageQueue.QueueStore.PersistQueue | src/stores/message-queue-store.ts:74-82 | an empty queue removes its entry, any other replaces it |
| MessageQueue.QueueStore.EnqueueItem | src/stores/message-queue-store.ts:86-95 | the item is appended and the queue written |
| MessageQueue.QueueStore.ReorderItem | src/stores/message-queue-store.ts:115-126 | removal and insertion at the clamped target are the specified move; moves to the same place write nothing |
| MessageQueue.QueueStore.TakeNext | src/stores/message-queue-store.ts:135-146 | the result is the first active item, which leaves the queue |
| MessageQueue.QueueStore.ChangeItems | src/stores/message-queue-store.ts:96-154 | edits, pauses, removals and clears change and write the queue only when they apply |
| MessageQueue.QueueStore.Hydrate | src/stores/message-queue-store.ts:163-180 | listed queues replace those in memory, empty ones are skipped |
| DraftMirror.CappedFixpointIff | src/stores/drafts-persistence.ts:28-51 | capping changes nothing exactly for at most 200 texts within the length limit |
| DraftMirror.CappedIdempotent | src/stores/drafts-persistence.ts:28-51 | capping twice is capping once |
| DraftMirror.FittingFirst | src/stores/drafts-persistence.ts:42-50 | each draft is kept or dropped by itself |
| DraftMirror.WrittenIff | src/stores/drafts-persistence.ts:35-51 | a draft is written exactly when it is among the last 200 and a text of at most 64 K |
| DraftMirror.AssignedReadsBack | src/stores/sessions-store.ts:164-175 | a draft assigned is read back, no other changes, and a key that is there keeps its place |
| DraftMirror.StoredDraftsWin | src/stores/drafts-persistence.ts:98-105 | at boot a stored draft wins over one in memory, and the others in memory stay |
| DraftMirror.RekeyKeepsOrderIff | src/stores/sessions-store.ts:184-193 | re-keying keeps a draft's place in the key order exactly when it was the newest |
| DraftMirror.RekeySurvivorsIff | src/stores/drafts-persistence.ts:35-40 | late and early re-keying let the same drafts survive the cap if and only if it does not apply or the re-keyed draft is among the newest 200 |
| DraftMirror.DraftPersistence.WriteStored | src/stores/drafts-persistence.ts:28-59 | the capped form is stored, and with at most 200 entries the live map loses what was not |
| DraftMirror.DraftPersistence.ScheduleWrite | src/stores/drafts-persistence.ts:65-75 | a text already serialized schedules nothing; any other replaces the pending write |
| DraftMirror.DraftPersistence.ChangeDrafts | src/stores/drafts-persistence.ts:107-115 | a pending write carries the latest drafts; with none pending they are stored in capped form |
| DraftMirror.DraftPersistence.OtherChange | src/stores/drafts-persistence.ts:107-115 | changes elsewhere in the store keep all this |
| DraftMirror.DraftPersistence.TimerFires | src/stores/drafts-persistence.ts:71-74 | the stored drafts are the capped form of the current ones, although the write may delete from them |
| DraftMirror.DraftPersistence.Flush | src/stores/drafts-persistence.ts:123-129 | a pending write is done at once from the store's map; without one nothing is written |
| DraftMirror.DraftPersistence.Boot | src/stores/drafts-persistence.ts:93-119 | stored drafts win over those in memory, and the result is scheduled |
| DraftMirror.DraftPersistence.Dispose | src/stores/drafts-persistence.ts:133-137 | the mirror stops following the store |
| StreamTransport.RunKeepsValid | electron/main/pi-stream-transport.ts:27-93 | in every run the timer is armed exactly for a non-empty buffer below its limit, and every accepted event is in one batch or the buffer, in order |
| StreamTransport.DeliveredInOrder | electron/main/pi-stream-transport.ts:37-84 | while a port stays attached and posting succeeds, what was posted followed by the buffer is everything published |
| StreamTransport.LostIff | electron/main/pi-stream-transport.ts:37-93 | exactly when a step loses a batch |
| StreamTransport.PortChangesIff | electron/main/pi-stream-transport.ts:37-93 | exactly when a port is attached and when it is given up |
| StreamTransport.BatchGoesToPort | electron/main/pi-stream-transport.ts:37-53 | a batch is the whole buffer and goes to the port there is |
| StreamTransport.PortIsLastAttached | electron/main/pi-stream-transport.ts:56-75 | over every run that port is the one last attached |
| StreamTransport.FullBufferIsPosted | electron/main/pi-stream-transport.ts:76-84 | the event that makes the buffer 4096 flushes it, and none before |
| StreamTransport.LateCloseIsHarmless | electron/main/pi-stream-transport.ts:63-65 | the late close of a replaced port changes nothing, after any run |
| StreamTransport.Transport.AttachPort | electron/main/pi-stream-transport.ts:56-75 | the new port replaces the old one, and is given up when the transfer fails |
| StreamTransport.Transport.Post | electron/main/pi-stream-transport.ts:37-45 | the batch goes to the port; a port that cannot be posted to is detached |
| StreamTransport.Transport.FlushBuffer | electron/main/pi-stream-transport.ts:47-53 | the buffer leaves as one batch and the timer is cleared |
| StreamTransport.Transport.PublishEvent | electron/main/pi-stream-transport.ts:76-84 | without a port the event is dropped; a full buffer is flushed at once |
| StreamTransport.Transport.OnPortClosed | electron/main/pi-stream-transport.ts:63-65 | only the current port's close detaches |
| StreamTransport.Transport.CloseTransport | electron/main/pi-stream-transport.ts:86-93 | buffer, timer and port are gone |
| SecretBridge.WholeGetAnswers | electron/main/agent/agent-secret-store-bridge.ts:130-161 | what a read that nothing interrupts answers, whichever way it takes |
| SecretBridge.ReadsAreTransparent | electron/main/agent/agent-secret-store-bridge.ts:130-161 | while a secret is not written, every read answers what the platform store holds, however calls overlap, through attaches, failures, migrations and writes of others |
| SecretBridge.HostHoldsLastWrite | electron/main/agent/agent-secret-store-bridge.ts:109-174 | over any overlapping calls the host holds what the last write it carried out has put there |
| SecretBridge.HealthyHostIsOneMap | electron/main/agent/agent-secret-store-bridge.ts:109-174 | through a healthy host, a read of a secret the platform store does not hold answers what the host held at some moment between its begin and its end |
| SecretBridge.DeletedStaysDeletedIff | electron/main/agent/agent-secret-store-bridge.ts:163-174 | a secret deleted at a healthy host is gone exactly when the platform store does not hold it |
| SecretBridge.StoredDuringOutageIff | electron/main/agent/agent-secret-store-bridge.ts:109-128 | a secret stored during an outage is read back later exactly when the host has no other value |
| SecretBridge.LastPutReadBackIff | electron/main/agent/agent-secret-store-bridge.ts:109-161 | after any run the value last put at the host is read back exactly when the last migration carried out after it, if any, wrote the same; while the host is out, when the platform store holds the same |
| SecretBridge.MigrationOverwritesIff | electron/main/agent/agent-secret-store-bridge.ts:150-161 | while the platform store's value stays, the value last put at the host is read back exactly when it is the legacy value, or the host is up and no migration was carried out after the put |
| SecretBridge.FailureFallsBack | electron/main/agent/agent-secret-store-bridge.ts:109-174 | a put that fails at the host is stored in the platform store, a delete removes from it |
| SecretBridge.SuccessSkipsFallback | electron/main/agent/agent-secret-store-bridge.ts:109-174 | a success leaves the platform store alone |
| SecretBridge.MigratesOnce | electron/main/agent/agent-secret-store-bridge.ts:150-152 | a secret is looked up for migration at most once until a reset |
| SecretBridge.AttachDecides | electron/main/agent/agent-secret-store-bridge.ts:56-77 | an attached host is tried at once whatever failed before, a detached one is not |
| SecretBridge.ReopenedIff | electron/main/agent/agent-secret-store-bridge.ts:79-92 | after a failure the host is open before an attach exactly when a call begun before the failure succeeds after it |
| SecretBridge.AskedAgainIff | electron/main/agent/agent-secret-store-bridge.ts:70-92 | it is open or sent a legacy value before an attach exactly when that happens, or a read begun before the failure comes to migrate |
| SecretBridge.FailureLastsUntilAttach | electron/main/agent/agent-secret-store-bridge.ts:70-92 | with no call under way at the host a failure lasts until the next attach |
| SecretBridge.LateSuccessReopens | electron/main/agent/agent-secret-store-bridge.ts:88-92 | of two reads under way one fails and then the other succeeds: the host is open without an attach |
| SecretBridge.FailedReadStillWrites | electron/main/agent/agent-secret-store-bridge.ts:150-161 | a read that fails still writes its legacy value to the host, which stays out |
| SecretBridge.BackoffDecidesNothing | electron/main/agent/agent-secret-store-bridge.ts:70-77 | in every run, however calls overlap, the test of the backoff period makes no difference |
| SecretBridge.SecretStoreBridge.AttachHost | electron/main/agent/agent-secret-store-bridge.ts:56-63 | availability follows the host and the failure is forgotten |
| SecretBridge.SecretStoreBridge.ResetBridge | electron/main/agent/agent-secret-store-bridge.ts:65-68 | no host, no failure, no secret counted as migrated; both tiers keep what they hold |
| SecretBridge.SecretStoreBridge.ShouldTryHost | electron/main/agent/agent-secret-store-bridge.ts:70-77 | the host is tried when attached, available and out of the backoff period |
| SecretBridge.SecretStoreBridge.BeginGet | electron/main/agent/agent-secret-store-bridge.ts:130-133 | a read up to its first await: the host or the platform store is asked |
| SecretBridge.SecretStoreBridge.BeginPut | electron/main/agent/agent-secret-store-bridge.ts:109-116 | a put up to its first await |
| SecretBridge.SecretStoreBridge.BeginDelete | electron/main/agent/agent-secret-store-bridge.ts:163-166 | a delete up to its first await |
| SecretBridge.SecretStoreBridge.GetReturns | electron/main/agent/agent-secret-store-bridge.ts:132-142 | the host's answer ends the read; nothing found or a failure goes on to the legacy value |
| SecretBridge.SecretStoreBridge.MigrateFromFallback | electron/main/agent/agent-secret-store-bridge.ts:150-152 | a secret is counted as migrated before its legacy value is looked up, once |
| SecretBridge.SecretStoreBridge.LegacyReturns | electron/main/agent/agent-secret-store-bridge.ts:152-155 | a legacy value found is sent to the host; without a host that fails at once |
| SecretBridge.SecretStoreBridge.MigrationReturns | electron/main/agent/agent-secret-store-bridge.ts:154-160 | the legacy value is the answer, whether its write succeeded or not; only a failure is recorded |
| SecretBridge.SecretStoreBridge.PutReturns | electron/main/agent/agent-secret-store-bridge.ts:111-127 | a success ends the put, a failure falls back |
| SecretBridge.SecretStoreBridge.DeleteReturns | electron/main/agent/agent-secret-store-bridge.ts:165-173 | a success ends the delete, a failure falls back |
| SecretBridge.SecretStoreBridge.FallbackReturns | electron/main/agent/agent-secret-store-bridge.ts:127-173 | the platform store answers or changes, and the call ends |
| MemoryMerge.TagMeaning | electron/main/agent/memory-bridge.ts:98-114 | an id has one entry exactly when a list mentions it, and what its tag says about the lists |
| MemoryMerge.ScoreMeaning | electron/main/agent/memory-bridge.ts:108 | the score of an entry is the best of its full-text score and its semantic scores |
| MemoryMerge.SharedHit | electron/main/agent/memory-bridge.ts:104-110 | a hit of both lists: the full-text one with both texts, one under the other, and the better score |
| MemoryMerge.UnsharedHit | electron/main/agent/memory-bridge.ts:99-113 | a hit of one list is that hit |
| MemoryMerge.TextsKept | electron/main/agent/memory-bridge.ts:107 | the text of an entry holds the texts of all hits merged into it |
| MemoryMerge.FtsOnlyMeaning | electron/main/agent/memory-bridge.ts:129-131 | full-text hits alone come as they are, as many as the limit says, twenty by default |
| MemoryMerge.NegativeLimit | electron/main/agent/memory-bridge.ts:115 | a negative limit cuts as many off the end |
| MemoryMerge.SortedInOrder | electron/main/agent/memory-bridge.ts:115 | sorting arranges the entries by descending score, then by first mention |
| MemoryMerge.OrderIsUnique | electron/main/agent/memory-bridge.ts:115 | only one arrangement is in that order, so any stable sort gives it |
| MemoryMerge.MergedLaws | electron/main/agent/memory-bridge.ts:93-116 | the result has min(limit, number of ids) distinct hits, each with the entry its id is due, in order |
| MemoryMerge.DroppedScoreLess | electron/main/agent/memory-bridge.ts:115 | no dropped hit scores more than a kept one |
| MemoryMerge.FtsWinsTies | electron/main/agent/memory-bridge.ts:88-116 | at equal scores hits of the full-text list precede those of the semantic list alone |
| MemoryMerge.MergeMemoryHits | electron/main/agent/memory-bridge.ts:93-116 | the two loops over the map, the sort and the cut amount to the specified merge |
| MemoryMerge.BridgeMemorySearch | electron/main/agent/memory-bridge.ts:123-141 | the merge when the recall answers, the full-text hits in their order otherwise |
| NewSession.RunKeepsValid | src/hooks/useOptimisticNewSession.ts:118-177 | over all interleavings each caller waits for the call under way or has the outcome of the call it joined, if and only if no factory throws while no call is under way |
| NewSession.SingleFlight | src/hooks/useOptimisticNewSession.ts:118-177 | at most one backend call is under way, no promise is settled twice, each with the outcome of its own call |
| NewSession.EveryoneIsSettled | src/hooks/useOptimisticNewSession.ts:155-173 | when the call ends, everyone who has called is settled and no waiter is left |
| NewSession.SharedOutcome | src/hooks/useOptimisticNewSession.ts:133-143 | callers of one call get one outcome |
| NewSession.RecordOfCallers | src/hooks/useOptimisticNewSession.ts:133-154 | a caller that joins leaves its provisional id in the record, waits behind the others, and starts no call |
| NewSession.OwnArgumentsIff | src/hooks/useOptimisticNewSession.ts:133-154 | a caller gets a session made for its own directory and model exactly when the first caller that joined the call asked for the same |
| NewSession.ThrowWedges | src/hooks/useOptimisticNewSession.ts:154-155 | a factory that throws leaves a record that nobody ever clears |
| NewSession.NewSessionHook.EnsureNewSession | src/hooks/useOptimisticNewSession.ts:118-177 | a caller joins the record that is there, or makes one and starts the backend call |
| NewSession.NewSessionHook.OnSettled | src/hooks/useOptimisticNewSession.ts:155-173 | the record is cleared first, then every waiter is settled in turn |

## Left out

- Rendering, effects, notifications, windows, menus, logging and inter-process plumbing: no state beyond what the stores hold.
- The text forms of JSON and digests: a text is represented by the value it parses to and a digest by the value digested, so both are injective. Key order is kept, except that integer-like keys are not moved to the front.
- Path checks, links, credential patterns and name checks of the importer, also that the rollback refuses ids its name check refuses; file sizes and modes; empty directories; other programs that change the files meanwhile.
- The scan that builds a preview, beyond the disposition and the list of files it yields.
- A centre file that is an array or a string at the top: the source spreads its indices as keys, the model counts it as an object without properties.
- Manifest.CompareVersion: numbers beyond the precision of doubles, and white space other than blank, tab and line ends, are not modelled.
- ImportService.ImportService.Confirm: says nothing about the files when a failure inside the recovery is itself ignored, nor about the journal file when its own write failed.
- ImportLaws.OverlappingConfirms: of two confirmations that overlap, the second does its work after the first; finer interleavings of their file operations are left out.
- Leases.SessionRegistry.Acquire: trimming takes off blanks, tabs and line ends, not all Unicode white space.
- Leases.SessionRegistry.Release: the owner's own dispose callback is not passed, and whether the callback fails makes no difference in the source either.
- EventRing.RunKeepsValid: for appended records that are stale, are progress, or exceed the last sequence; payload bounding, timestamps and the fraction of a query limit are left out.
- ReplayReader.DetectCoverageGap: numbers beyond the safe integers, a missing cursor, and the fields that only describe the gap are left out, as is the queue that merges replayed and live events.
- Lifecycle.SettlesInOwnTime: delays of the event loop and the clamping of timer delays below 1 or above 2147483647 milliseconds are not counted.
- ToolCalls.RunKeepsValid: new messages get unused ids, user messages hold no cards and a loaded history has distinct ids, as the stores provide; edits only as far as they keep the index, which is said exactly beside it.
- TranscriptStore.TranscriptStore.ApplyBatch: updates for another session, which are passed over, and plan updates are not part of a batch here; the completion of an orphan row and the attachments merged into a loaded history are left out, as are the time stamps, token counts and errors of messages.
- TranscriptStore.TranscriptStore.AppendStreamingDelta: the race of frame and timeout is one flush that may come at any time; the reducer that shadows the messages is not part of this model.
- MessageQueue.QueueStore.TakeNext: the array shared with earlier snapshots of the store, which the source splices in place, is a value here; writes reach storage in the order they were issued.
- DraftMirror.DraftPersistence.Boot: the returned disposer of a second boot, and a page without local storage, are not modelled.
- StreamTransport.Transport.AttachPort: ports are numbered, each used once; the starting of a port and the closing of the old one have no effect besides its late close event.
- SecretBridge.SecretStoreBridge.FallbackReturns: the platform store does its work at the moment its promise settles, and does not fail; a host attached anew has the secrets of the one before; labels and the answer's provider are left out.
- MemoryMerge.MergeMemoryHits: scores are reals, so not-a-number is out; fields besides id, title, body and score are left out, since they follow the entry.
- NewSession.NewSessionHook.EnsureNewSession: the flip of both stores to the provisional id, the wait for a pending session and the alias map are left out; the provisional id is a parameter.
- The plain setters of the session list are given as functions that the run laws cover, without a method of their own.
- The search filters, archive counts and loading flags of the session list, and the permission, audit, search and workspace bridges: they would only add easy members.
