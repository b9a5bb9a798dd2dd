# Verified model of the Minds desktop shell

The Electron shell of the Minds app (`apps/minds/electron`) holds hand-written
state machines and text transformations whose promises examples can only sample. This
project states what they promise for every input and every run, and proves it:

- the one-shot data migration, as atomic file-system steps with a crash possible
  between any two (`FileSystem`, `MigrationPlan`, `RecordedPaths`,
  `MigrationStates`, `MigrationSteps`, `MigrationMoves`, `Migration`, `MigrationRecovery`);
- the rule that a workspace is in at most one main window, and popouts pulled
  out of it (`WorkspaceAliases`, `Windows`, `OneWindowPerWorkspace`,
  `WindowEffects`, `RestoreEntries`, `TearOut`, `DragWatches`, `DragEffects`);
- the serialized updater tasks that share one updater object (`UpdateChannel`,
  `UpdateService`, `UpdateRuns`, `UpdateDelivery`);
- the backend's output on its way to the log and to a startup error
  (`LineSplitter`, `RotatingLog`, `RotationNames`, `LogPruning`, `StderrTail`,
  `BackendStartup`);
- the SVG path printer and parser, character by character (`Decimal`,
  `PathData`, `PathRoundTrip`, `PathTokens`), and the README table splice (`ConfigTable`);
- three small registries under delayed callbacks (`ExternalOpener`,
  `BannerRegistry`, `SessionSaver`).

`Text` holds the string operations they share and `Options` the optional value.

Where the source changes state in place, a class has the same fields and its
methods are proved equal to steps of a specification; what the source promises
is then proved of every run of those steps. Events of the host (Electron, the
child process, timers, electron-updater) are arguments or choices constrained
only by what the host guarantees; each module's `CanHappen` says what that is.

Verify with `dafny verify dfyconfig.toml` (Dafny 4.11).

What the proofs show about the code beyond its promises:

- For given roots, rewriting recorded paths can be repeated on every file exactly
  when neither root's text contains the other and no occurrence can run into or
  out of a replacement (`MigrationRecovery.RewritingRepeatsExactly`).
- A retreating window is certain to find its earlier page free exactly when its
  record still names that page (`OneWindowPerWorkspace.RetreatsExactlyOnce`).
- The commit handler leaves popout routes in a main window unchecked
  (`OneWindowPerWorkspace.PopoutPageInMainWindow`).
- Splicing forgets the earlier table exactly when that table holds no END marker
  (`ConfigTable.ResplicingForgets`).
- Names of rotations in years up to Y sort chronologically exactly when Y is at
  most 9999, and a run of the log conserves everything exactly when no two of its
  rotations got one name (`RotationNames.NamesSortUpToYear`,
  `RotatingLog.ConservesExactly`).
- Between two switches a version is downloaded again only after another one was
  (`UpdateRuns.StagedIsStored`).
- Relaying an id with a partner other than its known one breaks the alias pairing
  (`WorkspaceAliases.NewPairKeepsPairing`).

## Model

| member | source | states |
|---|---|---|
| Text.ReplaceAllLeavesNone | apps/minds/electron/migrate-data-dir.js:130-134 | replacing the legacy root by the state root leaves no occurrence of it, when neither text contains the other and no occurrence can run into or out of a replacement |
| Text.ReplaceAllIdempotent | apps/minds/electron/migrate-data-dir.js:130-134 | rewriting a file a second time changes nothing, under the same condition |
| Text.RepeatableExactly | apps/minds/electron/migrate-data-dir.js:130-134 | that condition is exact: rewriting twice equals rewriting once on every text if and only if it holds |
| Text.SomeTextKeepsOne | apps/minds/electron/migrate-data-dir.js:130-134 | whenever it fails, a text that still contains the legacy root after one rewrite: built from a root inside the other, or from an overlap that runs into or out of a replacement |
| Text.ReplaceAllWithoutOccurrence | apps/minds/electron/migrate-data-dir.js:131-133 | a file without an occurrence may be skipped: rewriting it would not change it |
| Text.ReplaceAllStep | apps/minds/electron/migrate-data-dir.js:134 | the first occurrence is replaced and what follows it is rewritten on its own |
| Text.SplitOnJoins | apps/minds/electron/migrate-data-dir.js:134 | splitting and joining with the same text is the identity, and no piece contains the separator |
| FileSystem.Disk.RenameTo | apps/minds/electron/migrate-data-dir.js:88-91 | one atomic rename: a whole tree is at its new place and nowhere else, every other path is untouched; refused where the system refuses it |
| FileSystem.Disk.MakeDirs | apps/minds/electron/migrate-data-dir.js:89 | creates only missing directories above and at a path, one at a time, and may stop in between; refused only where something else is in the way |
| FileSystem.Disk.RemoveTree | apps/minds/electron/migrate-data-dir.js:205-206 | removes contents before their directory, one at a time, and touches nothing else wherever it stops |
| FileSystem.Disk.ReadDir | apps/minds/electron/migrate-data-dir.js:119-121 | lists each entry of a directory once, in no particular order |
| FileSystem.RenameKeepsTree | apps/minds/electron/migrate-data-dir.js:88-91 | after a rename every file is still in a directory |
| MigrationPlan.PlanMoves | apps/minds/electron/platform-roots.js:191-210 | the nested loops compute exactly the plan that the characterisation below is about |
| MigrationPlan.PlanIsListedUnits | apps/minds/electron/platform-roots.js:173-210 | a move is on the plan exactly when its source is a listed entry (or a listed child of `logs`) other than the marker, and its target is that entry's own destination |
| MigrationPlan.OriginMeaning | apps/minds/electron/platform-roots.js:173-210 | a path is at or below an entry's destination exactly when that entry is its one origin, for every layout in which the roots do not overlap, including state and cache being one directory and logs being their `logs` directory |
| MigrationPlan.DestinationsApart | apps/minds/electron/platform-roots.js:183-210 | two different entries never land on, or inside, one another |
| MigrationPlan.WhereEntriesGo | apps/minds/electron/platform-roots.js:152-181 | the two cache entries go to the cache root, each child of `logs` to the logs root, everything else but the marker and `logs` itself to the state root, under the same name |
| MigrationStates.ScopeIsProfiles | apps/minds/electron/migrate-data-dir.js:27-33 | files named as JSON, at any depth below the state root's `mngr/profiles`, are rewritten, and nothing anywhere else |
| MigrationStates.TextOfSegments | apps/minds/electron/migrate-data-dir.js:111-134 | the text of a path spells its segments, each after a slash |
| RecordedPaths.VisitEntry | apps/minds/electron/migrate-data-dir.js:121-137 | one directory entry: pushed, rewritten, or passed over |
| RecordedPaths.VisitDirectory | apps/minds/electron/migrate-data-dir.js:119-138 | one directory popped from the stack: its entries handled in any order, its sub-directories left for later |
| RecordedPaths.RewriteRecordedPaths | apps/minds/electron/migrate-data-dir.js:111-141 | when the stack walk ends, every JSON file below `mngr/profiles`, at any depth and whatever order directories list in, is rewritten and no other path is touched; cut short, each path is as it was or rewritten |
| RecordedPaths.CountedByDirectory | apps/minds/electron/migrate-data-dir.js:117-137 | visiting one directory counts exactly the files among its entries that name the legacy root, whatever is left for later |
| MigrationSteps.RenameStep | apps/minds/electron/migrate-data-dir.js:178-199 | moving one more entry leads from one recoverable state to the next |
| MigrationSteps.RewriteStep | apps/minds/electron/migrate-data-dir.js:201 | rewriting any of the recorded paths leads from one recoverable state to the next, also when some were rewritten before a crash |
| MigrationSteps.RemoveStep | apps/minds/electron/migrate-data-dir.js:203-209 | removing any part of the stale directory leads from one recoverable state to the next |
| MigrationSteps.ReadyForMarker | apps/minds/electron/migrate-data-dir.js:199-217 | with everything moved, rewritten and cleaned up, every path is what the finished migration leaves there |
| MigrationMoves.RenamedOne | apps/minds/electron/migrate-data-dir.js:187-197 | on any disk an entry got past is gone from the legacy root, and one not got past is as it was |
| MigrationMoves.RefusedOne | apps/minds/electron/migrate-data-dir.js:88-91 | the system refuses a move only for something at the destination or something other than a directory above it |
| MigrationMoves.MovedOnStep | apps/minds/electron/migrate-data-dir.js:178-199 | whatever one entry does, every other unit is as it was or gone, both copies of each blocked unit and the marker are as they were |
| MigrationMoves.NothingLeft | apps/minds/electron/migrate-data-dir.js:187-199 | past the whole plan nothing is left to move, so no destination was taken |
| Migration.MoveOne | apps/minds/electron/migrate-data-dir.js:178-198 | one entry of the plan, on any disk: skipped when missing, dangling or a socket; never got past, and nothing changed, when its destination exists; else moved, leaving nothing behind; only its own two places change and root directories appear |
| Migration.MoveAll | apps/minds/electron/migrate-data-dir.js:176-199 | the move loop either gets past every entry, leaving nothing to move and having met no taken destination, or stops with every other unit as it was or gone, the marker as it was and both copies of each blocked entry in place |
| Migration.PlanCoversUnits | apps/minds/electron/migrate-data-dir.js:171-174 | a plan read after a crash lists everything that has not moved yet |
| Migration.PlanCoversDisk | apps/minds/electron/migrate-data-dir.js:171-174 | a plan read from any disk lists everything there is to move on it |
| Migration.FinishMigration | apps/minds/electron/migrate-data-dir.js:201-217 | rewrites, cleans up and only then writes the marker, with the number of files that named the legacy root; nothing in the legacy root changes, a crash before the marker leaves a recoverable state, and an error names what is in the way of the marker |
| Migration.Migrate | apps/minds/electron/migrate-data-dir.js:152-218 | all outcomes of one launch: nothing changes when the roots coincide or the marker is there; a fresh install is only marked; on any disk whose roots do not overlap, a migration answered has left nothing movable in the legacy root, and a launch that finds a taken destination writes no marker and keeps both copies of every such entry; and from any state a crashed migration left, it finishes or leaves another such state |
| Migration.LaunchUntilFinished | apps/minds/electron/migrate-data-dir.js:143-218 | any number of launches, each crashed before any of its mutations, then one that is not: the migration is finished |
| Migration.FreshIsNotMoved | apps/minds/electron/migrate-data-dir.js:220-223 | the marker of a fresh install is never taken for that of a move |
| MigrationRecovery.FinishedAlike | apps/minds/electron/migrate-data-dir.js:146-149 | all finished migrations of one disk leave the same files apart from the marker, however often they were cut short: the crashed ones agree with the uninterrupted one |
| MigrationRecovery.EntryInOnePlace | apps/minds/electron/migrate-data-dir.js:146-150 | in every recoverable or finished state each entry that moves is at exactly one of its two places, with everything below it there, unchanged unless rewriting or cleaning up is to change it |
| MigrationRecovery.OverlapBreaksRewriting | apps/minds/electron/migrate-data-dir.js:111-141 | for all roots whose texts fail the condition, a file that the rewrite of a launch after a crash changes again |
| MigrationRecovery.RewritingRepeatsExactly | apps/minds/electron/migrate-data-dir.js:111-141 | for given roots the rewrite can be repeated whatever the files hold if and only if their texts meet the condition |
| WorkspaceAliases.SameIsEqualHosts | apps/minds/electron/main.js:325-341 | two ids name one workspace exactly when their host ids are equal, so naming the same workspace is an equivalence |
| WorkspaceAliases.NewPairKeepsPairing | apps/minds/electron/main.js:343-350 | relaying a pair keeps the two maps mirrored if and only if the pair is already known, which changes nothing, or its two different ids were not seen before |
| WorkspaceAliases.RelayedIsSame | apps/minds/electron/main.js:343-350 | once relayed, an agent id and a host id name one workspace by its host id, and ids of other workspaces name what they named |
| Windows.WindowSet.MostRecentFor | apps/minds/electron/main.js:444-451 | the scan finds the most recently focused main window that holds the workspace |
| Windows.WindowSet.ClaimWindow | apps/minds/electron/main.js:3665-3678 | a claim either points to the window that holds the workspace, changing nothing, or records it for the asker |
| Windows.WindowSet.OnTopLevelNavigate | apps/minds/electron/main.js:933-992 | a commit onto a workspace another main window holds only notes the history index and names that window; any other commit replaces the record |
| Windows.WindowSet.DetachWindowsFor | apps/minds/electron/main.js:602-623 | closes the popouts of the workspace, and its main windows when another main window survives |
| OneWindowPerWorkspace.AlwaysUnique | apps/minds/electron/main.js:933-992 | over every run of opens, focus changes, claims, commits, frame commits, closes and detaches no two main windows hold one workspace under either of its ids |
| OneWindowPerWorkspace.StepKeepsUnique | apps/minds/electron/main.js:933-1026 | each single handler keeps that rule |
| OneWindowPerWorkspace.RecordKeepsUnique | apps/minds/electron/main.js:963-982 | recording a workspace for a main window keeps the rule exactly when no other main window holds it |
| OneWindowPerWorkspace.PopoutPageInMainWindow | apps/minds/electron/main.js:974-979 | the commit handler does not check popout routes: the rule survives one in a main window exactly when no other main window holds its workspace |
| OneWindowPerWorkspace.DetachSparesLastMain | apps/minds/electron/main.js:597-623 | a detach never closes the last main window and closes only windows that hold the workspace |
| OneWindowPerWorkspace.DetachClearsWorkspace | apps/minds/electron/main.js:602-623 | after a detach no popout holds the workspace, and no window at all when some main window showed something else |
| OneWindowPerWorkspace.OneStepRetreatReturns | apps/minds/electron/window-policy.js:84-88 | the retreat from a one-step history move, back or forward, leads to the page the window left |
| OneWindowPerWorkspace.RetreatLeavesPage | apps/minds/electron/window-policy.js:84-88 | every retreat leaves the page landed on, one step the way the window came from, or home where there is no such step |
| OneWindowPerWorkspace.RetreatsExactlyOnce | apps/minds/electron/main.js:422-436 | the yield leaves the window's record unchanged; the page it retreats to is certain to be free whatever other windows do meanwhile exactly when the record still named it; and its commit there leaves it holding what that page shows, with the one-window rule kept |
| OneWindowPerWorkspace.UnnamedPageCanBeTaken | apps/minds/electron/main.js:422-436 | when the record names something else, there is a run of other windows' events after which the page it retreats to is held |
| WindowEffects.CommitShows | apps/minds/electron/main.js:933-992 | every commit, by a window of either kind and whatever it held: a landing on a workspace another main window holds changes only the history index; any other leaves the window holding what the page is about, popout routes included, or nothing |
| WindowEffects.PopoutGoesWithItsWorkspace | apps/minds/electron/main.js:974-979 | a window that committed a popout route holds that popout's workspace, so whatever other windows do meanwhile a detach of the workspace leaves no such popout open |
| WindowEffects.FrameCommitShows | apps/minds/electron/main.js:1011-1026 | a frame's commit becomes the record of a main window and changes nothing of a popout |
| WindowEffects.ClaimGivesOneHolder | apps/minds/electron/main.js:3665-3678 | a claim changes nothing when another main window holds the workspace, and otherwise makes the asker hold it, no other window changing |
| WindowEffects.FocusedIsMostRecent | apps/minds/electron/main.js:438-451 | the window focused last is the answer for what it holds, and the answers for every other workspace stay |
| WindowEffects.OpenAnswersAlike | apps/minds/electron/main.js:438-451 | a new window holds nothing and changes no answer |
| WindowEffects.CloseAnswersAlike | apps/minds/electron/main.js:438-451 | closing a window takes it and no other away, and changes no answer but its own |
| WindowEffects.DetachCloses | apps/minds/electron/main.js:602-623 | a detach closes exactly the windows that hold the workspace and are popouts, or are main windows while some main window shows something else |
| WindowEffects.DetachAnswersAlike | apps/minds/electron/main.js:602-623 | a detach changes no answer for another workspace |
| RestoreEntries.DedupeRestoreEntries | apps/minds/electron/window-policy.js:50-62 | the loop keeps exactly the first entry of each workspace, and every entry that shows none |
| RestoreEntries.RestoredAreDistinct | apps/minds/electron/window-policy.js:34-49 | kept entries are saved ones, and no two show one workspace |
| RestoreEntries.NoWorkspaceLost | apps/minds/electron/window-policy.js:34-49 | every saved entry is kept or one that shows its workspace is |
| RestoreEntries.KeptInOrder | apps/minds/electron/window-policy.js:50-62 | exactly the entries that show no workspace, or one no earlier entry shows under either id, are kept, each once and in save order |
| TearOut.PopoutDesk.FindPopout | apps/minds/electron/main.js:395-401 | finds the first open popout of the window, under either id of its workspace |
| TearOut.TearOutWatch.Sample | apps/minds/electron/tear-out-watch.js:40-54 | one cursor sample: a lingering popout of the window goes before the drag opens its own, and coming back drops the popout and says so |
| TearOut.TearOutWatch.OnRelease | apps/minds/electron/tear-out-watch.js:57-61 | a popout that is out stays, and the release is reported |
| TearOut.TearOutWatch.OnEnd | apps/minds/electron/tear-out-watch.js:69-77 | the shell's end: cancelled, or not detached when it does not say, closes the popout silently; else it is a release |
| TearOut.TearOutWatch.Abandon | apps/minds/electron/tear-out-watch.js:81-83 | a watch that is replaced keeps its popout |
| DragWatches.StopHolding | apps/minds/electron/main.js:879-883 | the loop over the windows ends exactly the drags whose popout closed, keeping what each reported |
| DragWatches.Shell.OnClosed | apps/minds/electron/main.js:873-887 | a popout that closes takes the drag that holds it with it, and no other |
| DragWatches.Shell.OnBegin | apps/minds/electron/main.js:3561-3580 | a begin for the window already dragged only updates its request; any other abandons the drag under way and starts one that holds nothing |
| DragWatches.Shell.OnShellEnds | apps/minds/electron/main.js:3582-3595 | the shell's end stops the drag of the window it names, and only then lets the watch keep or close its popout |
| DragWatches.Shell.OnOpenAsked | apps/minds/electron/main.js:3463-3480 | an ask for a window already out changes nothing, unless its popout is on its way back: then that one closes and another opens |
| DragWatches.StepKeeps | apps/minds/electron/main.js:873-887 | each handler keeps the invariant: one popout per window, watches holding only open popouts of their own window, each at most once, and exactly the held ones following the cursor |
| DragWatches.AlwaysConsistent | apps/minds/electron/tear-out-watch.js:21-85 | over every run of samples, releases, shell ends, replaced drags, popout and source closes, open asks and restores: that invariant, a running watch holds a popout exactly when its last report was `out`, and each drag's reports are repeats of `out in`, then perhaps `out` or `out released` |
| DragWatches.ComingBackEndsNothing | apps/minds/electron/tear-out-watch.js:48-53 | coming back inside drops this drag's popout and ends no watch |
| DragWatches.EndingKeepsPopouts | apps/minds/electron/tear-out-watch.js:57-83 | a release, a close of the source, a replaced drag and every shell's end that does not cancel, said or unsaid, close no popout |
| DragWatches.CancellingClosesItsOwn | apps/minds/electron/tear-out-watch.js:69-74 | a drag cancelled, or ended inside by a shell that does not say, closes the popout it held and no other |
| DragWatches.HoldsNew | apps/minds/electron/main.js:3493-3506 | a watch that takes hold of the popout just opened for it keeps the invariant |
| DragEffects.OpenAskedOpens | apps/minds/electron/main.js:3463-3480 | an ask for a window that is out and stays out changes nothing; any other ends with the window in exactly one popout, newly opened, or in none when none can open, every other popout as it was |
| DragEffects.RestoredShows | apps/minds/electron/main.js:2741-2752 | a restore opens one popout for a window that is in none, and otherwise changes nothing |
| DragEffects.GoingOutOpens | apps/minds/electron/tear-out-watch.js:41-47 | crossing out ends with the window in exactly one popout, held by the drag and following the cursor, and reported; when none can open, in none, and nothing is reported |
| DragEffects.ComingBackSaysSo | apps/minds/electron/tear-out-watch.js:48-53 | coming back in drops exactly the popout held and reports it |
| DragEffects.ReleaseSaysSo | apps/minds/electron/tear-out-watch.js:57-61 | a release ends the drag, reports it if the drag is out, and leaves the popout in place, no longer following |
| DragEffects.ShellEndDecides | apps/minds/electron/tear-out-watch.js:69-77 | the shell's end counts only for the dragged window; said to be cancelled, or unsaid and not detached, it closes the popout with nothing more reported, and otherwise it is a release |
| DragEffects.PopoutCloseEndsItsDrag | apps/minds/electron/main.js:873-887 | a popout that closes ends the drag that holds it, if one does, and changes nothing else |
| DragEffects.BeginStarts | apps/minds/electron/main.js:3561-3580 | a begin for the same window keeps what the drag holds and reported; any other starts empty, what was dragged before being over with its popout left in place |
| DragEffects.SourceCloseAbandons | apps/minds/electron/tear-out-watch.js:79-83 | when the dragged-in window goes, its drag is over with its popout left in place and nothing more reported |
| DragEffects.OthersEndOnlyWithTheirPopout | apps/minds/electron/main.js:873-887 | whatever happens to other windows, a drag goes on unchanged while the popout it holds is open and is over, having reported nothing more, when it is not |
| UpdateChannel.AutoUpdater.ApplyFeed | apps/minds/electron/update-channel.js:111-117 | the singleton ends pointed at the feed with downgrades refused, although its channel setter turned them on |
| UpdateChannel.AutoUpdater.CheckForUpdates | apps/minds/electron/update-channel.js:122-126 | a check in flight is joined; otherwise a request starts for the feed and rule in force |
| UpdateService.Service.Begin | apps/minds/electron/updater.js:219-222 | what each kind of task does up to its first await, a download whose channel is no longer stored being dropped |
| UpdateService.Service.OnCheckEnds | apps/minds/electron/updater.js:248-275 | what a check, a download's own check and a peek do once their check settled, failed or timed out |
| UpdateService.Service.OnDownloadEnds | apps/minds/electron/updater.js:323-341 | a completed download is what is staged from then on; a failed one changes nothing |
| UpdateService.Service.OnDiscardEnds | apps/minds/electron/updater.js:415-420 | a switch forgets what was staged, whether or not the preference could be written |
| UpdateRuns.StepKeeps | apps/minds/electron/updater.js:212-222 | each segment between two awaits keeps: one task under way, its request its own, its channel the stored one, and the log of downloads consistent with what is staged |
| UpdateRuns.NeverShared | apps/minds/electron/updater.js:170-180 | over every interleaving only one task is under way, and the check it awaits is a request it started itself, against its own channel's feed with downgrades refused |
| UpdateRuns.DownloadsAreOwn | apps/minds/electron/updater.js:280-341 | while a download task runs its channel is the stored one, and every completed download fetched the version its own task's check of that channel had just found, newer than the running build, whatever was queued around it |
| UpdateRuns.StagedIsStored | apps/minds/electron/update-channel.js:190-200 | what is staged came from the channel stored now, in the last download since the last switch; two consecutive downloads fetch different versions, and between two downloads of one version there is a switch or a download of another |
| UpdateRuns.StepDescends | apps/minds/electron/updater.js:295-321 | every step other than a new request brings the queue nearer its end, downloads it appends included |
| UpdateRuns.NeverStuck | apps/minds/electron/updater.js:151-168 | as long as a task has not settled some task can move, a check by its deadline alone: a stalled check never holds up what is queued behind it |
| UpdateDelivery.CheckQueuesDownload | apps/minds/electron/updater.js:248-275 | a check that ends queues exactly one download, last and for the stored channel, when it found an update that is not staged already, and nothing otherwise |
| UpdateDelivery.StartsAsMeant | apps/minds/electron/updater.js:219-321 | each kind of task begins with its own question of the feed meant, downgrades refused: a download whose channel is no longer stored asks nothing, a peek begins with the first channel, a switch only turns off installing at quit |
| UpdateDelivery.DownloadFetches | apps/minds/electron/updater.js:295-331 | a download's own check starts fetching exactly when it offers an update that is not staged already, with installing at quit as the build has it |
| UpdateDelivery.PeekGoesOn | apps/minds/electron/updater.js:454-480 | a peek asks the next channel whatever the last answer was, and after the last points the updater back at the stored channel |
| UpdateDelivery.SwitchTakesEffect | apps/minds/electron/updater.js:407-420 | a switch unstages what was staged, and from then on the channel switched to is the stored one unless writing it failed |
| UpdateDelivery.StoredIsServed | apps/minds/electron/update-channel.js:46-62 | the channel read is the stored one on a build with a manifest host, and stable when nothing is stored or there is no host |
| UpdateDelivery.OthersOnlyQueue | apps/minds/electron/updater.js:212-222 | while a task awaits something, nothing happens to any other task but that new ones are queued behind |
| UpdateDelivery.FoundIsDelivered | apps/minds/electron/updater.js:248-341 | what a check found is delivered: whatever else runs meanwhile, if no switch comes between, its download asks the same channel when its turn comes, and the version that answer offers is staged already or is staged when the download completes |
| UpdateDelivery.AlwaysSet | apps/minds/electron/update-channel.js:111-117 | over every interleaving the shared updater is pointed at what the task under way asks, never downloads by itself and installs at quit only while a download runs in a build that does |
| UpdateDelivery.PeekAsksEveryChannel | apps/minds/electron/updater.js:454-480 | over every interleaving a finished peek has asked every channel the build serves, each once and in order |
| RotatingLog.Sink.Write | apps/minds/electron/log-rotation.js:166-178 | a chunk is written, or buffered when the file is full or rotating, starting a rotation in the first case |
| RotatingLog.Sink.OnStreamEnded | apps/minds/electron/log-rotation.js:150-163 | the rotation callback, its failed rename included: the replayed buffer may start the next rotation |
| RotatingLog.RunConserves | apps/minds/electron/log-rotation.js:145-178 | over every run of writes and callbacks under distinct names, rotated files in order, then the current file, then the buffer, are the initial content followed by all writes |
| RotatingLog.RunRotatesInTime | apps/minds/electron/log-rotation.js:166-178 | while renames succeed every rotated file reached the limit, and only with its last chunk |
| RotatingLog.EndedMakesProgress | apps/minds/electron/log-rotation.js:161-162 | each ended rotation shortens the buffer |
| RotatingLog.CountsAfresh | apps/minds/electron/log-rotation.js:145-178 | after any callback, a failed rename included, only the chunks replayed count towards the limit, in order and up to the first that finds it reached |
| RotatingLog.RenameConservesExactly | apps/minds/electron/log-rotation.js:150-157 | a rename conserves everything if and only if its name is new or the file that had it is empty |
| RotatingLog.ConservesExactly | apps/minds/electron/log-rotation.js:145-178 | over every run from an opened file, failed renames included, everything is conserved if and only if no two rotations got one name |
| RotatingLog.SameNameLosesFile | apps/minds/electron/log-rotation.js:152-153 | a run that reaches the loss: a sink opened on an empty file and two rotations under one name, after which the first chunk is gone |
| RotationNames.MillisOrdered | apps/minds/electron/log-rotation.js:29-41 | instants of the UTC calendar, leap years included, are ordered as their milliseconds |
| RotationNames.TimestampSpells | apps/minds/electron/log-rotation.js:29-41 | a timestamp is 17 digits that spell year, month, day, hour, minute, second and millisecond, for years up to 9999 |
| RotationNames.TimestampsOrdered | apps/minds/electron/log-rotation.js:21-41 | for years up to 9999 timestamps compare as strings exactly as their instants compare in time |
| RotationNames.RotatedNamesOrdered | apps/minds/electron/log-rotation.js:21-41 | names of compressed rotations compare as strings exactly as their instants compare in time, for years up to 9999 |
| RotationNames.YearTenThousandSortsFirst | apps/minds/electron/log-rotation.js:29-41 | the last rotation of the year 9999 sorts after the first of the year 10000 |
| RotationNames.NamesSortUpToYear | apps/minds/electron/log-rotation.js:21-41 | names of rotations in years up to Y sort as their instants for all pairs if and only if Y is at most 9999 |
| LogPruning.Directory.Prune | apps/minds/electron/log-rotation.js:49-68 | deletes exactly the rotations with enough newer ones beside them, less what cannot be deleted |
| LogPruning.KeptAreNewest | apps/minds/electron/log-rotation.js:60-67 | all rotations are kept when there are at most the limit, and exactly the limit of them otherwise, each newer than everything removed |
| LogPruning.PrunesOnlyRotations | apps/minds/electron/log-rotation.js:56-66 | only files named by this log, a dot and something ending in the compressed suffix are ever deleted |
| LogPruning.RotatedNamesAreSeen | apps/minds/electron/log-rotation.js:56-60 | every name the rotation gives is among those looked at |
| LogPruning.PruningKeepsLatest | apps/minds/electron/log-rotation.js:43-68 | for names made by the rotation timestamp, what is kept was made after everything removed |
| LineSplitter.Splitter.Push | apps/minds/electron/log-timestamp.js:44-52 | answers the lines completed by the chunk and holds back the rest |
| LineSplitter.Splitter.Flush | apps/minds/electron/log-timestamp.js:53-58 | answers the held-back rest once, or nothing when there is none |
| LineSplitter.LinesRejoin | apps/minds/electron/log-timestamp.js:41-60 | the lines contain no newline and rejoin, with the rest, to the text |
| LineSplitter.OneDivision | apps/minds/electron/log-timestamp.js:41-60 | a text has only one division into lines without newlines and a rest without one |
| LineSplitter.RunRejoins | apps/minds/electron/log-timestamp.js:41-60 | over any chunks, the lines answered and the rest held back rejoin to all the text pushed |
| LineSplitter.ChunkingIrrelevant | apps/minds/electron/log-timestamp.js:30-40 | two chunkings of the same text give the same lines and the same rest |
| LineSplitter.RecordReadsBack | apps/minds/electron/log-timestamp.js:25-28 | a stamped record reads back as the line it was made from |
| StderrTail.Tail.Push | apps/minds/electron/backend-exit-diagnostics.js:40-49 | after every push the ring is the longest end of the accepted, scrubbed, cut lines within 20 lines and 4096 characters; eviction stops before the ring is empty |
| StderrTail.Tail.Lines | apps/minds/electron/backend-exit-diagnostics.js:50-52 | what is reported is that longest end, and it is empty only when no line was accepted |
| StderrTail.LongestFitUnique | apps/minds/electron/backend-exit-diagnostics.js:36-54 | a list of lines has only one longest end within both bounds |
| StderrTail.LastLineKept | apps/minds/electron/backend-exit-diagnostics.js:45-48 | the reported tail is never empty once a line was accepted |
| StderrTail.KeptLineByLine | apps/minds/electron/backend-exit-diagnostics.js:40-44 | line by line: one that is all blank or carries a credential is passed over; any other is kept as the last 4096 characters of its scrubbed text |
| BackendStartup.Startup.OnStdout | apps/minds/electron/backend.js:544-580 | a chunk of stdout: every completed line logged redacted, counted and judged |
| BackendStartup.Startup.OnStderr | apps/minds/electron/backend.js:587-602 | a chunk of stderr: every completed line logged, and kept for the error while startup is open |
| BackendStartup.Startup.FinalizeLog | apps/minds/electron/backend.js:610-617 | unfinished lines are logged and the log is closed, once |
| BackendStartup.Startup.RejectEarlyExit | apps/minds/electron/backend.js:633-643 | an early exit is reported once |
| BackendStartup.Startup.OnExit | apps/minds/electron/backend.js:650-659 | an exit settles startup and arms the drain timer |
| BackendStartup.SettlesOnce | apps/minds/electron/backend.js:544-659 | in every order of events startup is settled by at most one call, the log is closed at most once, and the flags agree with what happened |
| BackendStartup.Decides | apps/minds/electron/backend.js:556-659 | from an undecided state exactly a login URL, an exit or a spawn error decides, each for its own path |
| BackendStartup.FirstDecisionStands | apps/minds/electron/backend.js:650-659 | the first decision stands: a login URL read after an exit resolves nothing |
| BackendStartup.EarlyExitIsReported | apps/minds/electron/backend.js:627-648 | until an early exit is reported the timer is armed, and the close or the timer reports it |
| BackendStartup.RunInStep | apps/minds/electron/backend.js:506-602 | until the pipes close, the tail has been given every complete stderr line and the counter every event, however the output was chunked |
| BackendStartup.EarlyExitCarriesTail | apps/minds/electron/backend.js:633-648 | the error carries the tail of everything on stderr, its unfinished last line included at the close, and the number of events |
| BackendStartup.LogIsEveryLine | apps/minds/electron/backend.js:544-590 | over every run before the pipes close the log is made up of exactly the redaction of each complete stdout line and each complete stderr line, each stream in its own order, however the output was chunked |
| BackendStartup.LogEndsAtClose | apps/minds/electron/backend.js:527-617 | the close, or a failed spawn, adds the unfinished stdout line redacted and the unfinished stderr line, closes the log once, and nothing is added whatever comes later |
| BackendStartup.FirstLoginSettles | apps/minds/electron/backend.js:556-566 | while the child runs startup is settled exactly by the first login line of all it wrote, with that line's URL |
| BackendStartup.FailureSettles | apps/minds/electron/backend.js:619-659 | before a login line a failed spawn settles it with its own message, and an exit records its own code |
| BackendStartup.SettledCollectsNothing | apps/minds/electron/backend.js:508-518 | once startup is settled and any early exit reported, nothing is fed to the tail or the counter again |
| PathData.EmitPath | apps/minds/electron/intro-wobble.js:97-113 | the nested loops over pushed pieces print exactly the text of the specification that the round trips below are about |
| PathData.ParsePath | apps/minds/electron/intro-wobble.js:73-94 | the token loop agrees with the recursive reader on every text, including its two errors and coordinates that are missing |
| PathRoundTrip.PrintedIsOneToken | apps/minds/electron/intro-wobble.js:74 | a printed coordinate followed by a separator is exactly one token of the number pattern |
| PathRoundTrip.PrintedReadsBack | apps/minds/electron/intro-wobble.js:101 | a printed coordinate reads back as its nearest thousandth |
| PathRoundTrip.ItemsTokenized | apps/minds/electron/intro-wobble.js:96-113 | a printed path tokenizes to its commands and coordinates |
| PathRoundTrip.ItemsReadBack | apps/minds/electron/intro-wobble.js:78-93 | from those tokens the reader rebuilds the subpaths command by command |
| PathRoundTrip.ParseOfPrint | apps/minds/electron/intro-wobble.js:65-113 | parsing what is printed under any finite warp gives the warped path, each coordinate rounded to its nearest thousandth |
| PathRoundTrip.RestRoundTrip | apps/minds/electron/intro-wobble.js:65-113 | for coordinates in whole thousandths, parsing what is printed under the identity warp returns the same subpaths |
| PathTokens.LongestNumber | apps/minds/electron/intro-wobble.js:74 | the number matched at the start of a text is the longest prefix the pattern `-?\d*\.?\d+(?:[eE][-+]?\d+)?` describes, and none is matched only when no prefix is one |
| PathTokens.TokensAreLongestMatches | apps/minds/electron/intro-wobble.js:74 | tokens are taken from the left, each the longest match where it begins, and a character that begins none is passed over |
| PathTokens.LiteralIsOneToken | apps/minds/electron/intro-wobble.js:69-74 | every number literal, with a point or without, with an exponent of either sign or without, is one token when nothing follows that it could go on with |
| PathTokens.LiteralReadsAs | apps/minds/electron/intro-wobble.js:79 | every literal is read as all its digits, as one whole number, times ten to the power of its exponent less the digits after its point |
| PathTokens.TimesTenToIsProduct | apps/minds/electron/intro-wobble.js:79 | where that power is repeated multiplication by ten, or division when it is negative |
| PathTokens.PathReadsAsDrawn | apps/minds/electron/intro-wobble.js:66-94 | every path written with complete commands in either case and any literals is read as what it draws, and a curve while no subpath is open is refused |
| PathTokens.NumberFirstRefused | apps/minds/electron/intro-wobble.js:89-91 | a number where a command should be is refused, and named |
| ConfigTable.MarkersWellFormed | scripts/make_cli_docs.py:715-716 | the two markers are apart and begin nowhere inside themselves, which the laws below need |
| ConfigTable.SpliceFramed | scripts/make_cli_docs.py:865-877 | a splice replaces exactly what lies between the markers and keeps all text outside |
| ConfigTable.SpliceMeaning | scripts/make_cli_docs.py:865-877 | a README without one of the markers is refused, so is one whose first END marker comes before its first BEGIN marker, and any other keeps all text up to its first BEGIN marker and from its first END marker on |
| ConfigTable.ResplicingForgets | scripts/make_cli_docs.py:865-877 | splice after splice is the last splice alone, for every later table, exactly when the earlier table contains no END marker |
| ConfigTable.FindStaleFiles | scripts/make_cli_docs.py:930-937 | the files whose content on disk differs from what would be written |
| ConfigTable.NothingStaleAfterWrite | scripts/make_cli_docs.py:890-937 | right after a write nothing is stale, also when several tables name one README, for tables without an END marker |
| ExternalOpener.Opener.OpenExternal | apps/minds/electron/link-routing.js:273-292 | up to the dialog: opened at once, dropped, or suspended; the map of set objects equals the suspended calls throughout |
| ExternalOpener.Opener.OnAnswer | apps/minds/electron/link-routing.js:293-302 | after the dialog, a failed one included: the question is forgotten first, and only an accepted one opens the link |
| ExternalOpener.AsksIsInFlight | apps/minds/electron/link-routing.js:274-298 | the map lists a window and scheme exactly while a call for them is suspended |
| ExternalOpener.FinishKeeps | apps/minds/electron/link-routing.js:295-298 | ending one call removes its question and no other, and leaves no empty set |
| ExternalOpener.ClickOpensOrAsks | apps/minds/electron/link-routing.js:273-290 | a click opens its link at once when nothing needs asking, is dropped only while a dialog about its scheme is open for its window, and otherwise gets a dialog of its own |
| ExternalOpener.AnswerConcludes | apps/minds/electron/link-routing.js:293-302 | an answer ends its own dialog and no other; accepted it opens the link asked about, and remembered it allows its scheme for its workspace |
| ExternalOpener.AlwaysOneDialogEach | apps/minds/electron/link-routing.js:255-259 | over every interleaving at most one dialog is open per window and scheme |
| ExternalOpener.AllowedWasChosen | apps/minds/electron/link-routing.js:300 | a scheme is allowed for a workspace exactly when it was from the start or an accepted dialog for it asked to remember |
| ExternalOpener.OpensOnlyWithConsent | apps/minds/electron/link-routing.js:273-303 | each link opened is the doing of one event of its own, in order: for a link that takes the user's word, a click while its scheme was allowed or the acceptance of its own dialog; and every such event opens its link once |
| ExternalOpener.AnsweredOnce | apps/minds/electron/link-routing.js:290-298 | once answered, a dialog is never open again, so one acceptance opens one link |
| BannerRegistry.LiveIsStanding | apps/minds/electron/notifications.js:85-87 | the live set is exactly the banners remembered and neither they nor their chat ended since |
| BannerRegistry.Registry.Remember | apps/minds/electron/notifications.js:91-107 | adds the banner to its chat's set, a new one if there is none, and subscribes to it |
| BannerRegistry.Registry.Deliver | apps/minds/electron/notifications.js:99-106 | a click or close at any later time, also after the chat was closed and reopened, removes exactly that banner; the registry shows the live set and keeps no empty set |
| BannerRegistry.Registry.CloseChat | apps/minds/electron/notifications.js:109-116 | takes the chat's banners down and answers how many were live |
| SessionSaver.Saver.OnSchedule | apps/minds/electron/session-persistence.js:128-134 | arms a timer unless one is pending |
| SessionSaver.Saver.OnFlush | apps/minds/electron/session-persistence.js:145-149 | saves at once exactly when a save was pending |
| SessionSaver.ThrottlesSaves | apps/minds/electron/session-persistence.js:102-113 | over every timed run at most one timer is armed and saves by timer are at least the delay apart |
| SessionSaver.ScheduleIsServed | apps/minds/electron/session-persistence.js:102-113 | every schedule is cancelled or saved within the delay and the host's latency, or that time is not over and a timer is armed for it |
| SessionSaver.CancelDisarms | apps/minds/electron/session-persistence.js:138-144 | a cancel leaves no timer armed and saves nothing |
| SessionSaver.FlushSavesPending | apps/minds/electron/session-persistence.js:145-149 | a flush leaves no timer armed, and saves at once if one was |
| SessionSaver.NothingSavedUnscheduled | apps/minds/electron/session-persistence.js:138-149 | over every run nothing is saved after a cancel or a flush until the next schedule |
| SessionSaver.SavesWereScheduled | apps/minds/electron/session-persistence.js:102-113 | over every run there are no more saves, counting the timer still armed, than schedules |

## Left out

- The cross-volume copy-then-delete branch of `movePath`: a crash between the two stops the next launch at "already exists" by design.
- A marker path that is a dangling link: writing it is refused, where the system would create the link's target.
- Symbolic links to directories, and links that start to dangle because their target moved: a link is a leaf that resolves or does not, once and for all.
- Writes that tear within one file: each mutation of the disk is one atomic step; removing a tree and creating nested directories are many.
- The failure log and the latchkey link of the migration module, and `log` output everywhere.
- Windows path separators: paths are segment lists, and their text joins the segments with `/`.
- Alias maps that change while windows are open: they are a fixed pairing in the window, popout and restore runs.
- History jumps of more than one step, and commits that replace the entry at the same index, in the retreat results.
- The route handed to a raised window, account ids, titles, error pages and immersive mode of the navigation handlers.
- Electron's asynchronous window destruction: closing a popout removes it and ends the watch that holds it in one step.
- Drags begun by a popout's own page and dragging a popout by its own bar; the reattach handshake is the event that marks a popout as leaving and the event that closes it.
- Popout bounds, cursor positions, zoom and the send failures of tear-out reports: whether a sample is out and whether a popout can open are arguments.
- Drag watches as heap objects of the window records: `DragWatches.Shell` keeps each watch as a record keyed by its source window; the closure itself is the class `TearOut.TearOutWatch`.
- An updater that is inactive (`disabled`), status messages and their times, rollout and parked verdicts, and installing.
- A check that settles after its deadline: an abandoned check is taken never to settle, as the source says.
- Semantic version syntax: versions are ordered as integers, and a version offered without leave to downgrade is newer than the running one.
- Changes of the stored channel by another process while the app runs.
- Node streams, gzip, file flags and byte encoding in the log sink: a file is the sequence of chunks written to it.
- `end()` of the log sink during a rotation.
- The clock that names rotations: names are arguments, and two rotations within one millisecond are two with one name.
- The home-directory pattern and the credential rule of the stderr tail: functions of the line, unspecified.
- `onLogLine`, notification and auth callbacks, port waiting and child-process spawning in backend startup: they neither settle startup nor touch its log.
- Log lines that arrive after the log was closed: they are dropped, as the closed stream drops them.
- `toFixed` beyond 1e21 and the rounding of binary floating point: coordinates are real numbers, rounded half away from zero to thousandths.
- UTF-16: strings are sequences of characters, compared by code unit value where the source sorts.
- Spring physics and the warp itself in the intro: any function from points to points that yields finite coordinates.
- Rendering the config tables and the other generated documents (the spliced table is given), and the order in which stale files are listed.
- URL parsing, prompt texts and app names of the external opener: which links ask, and their scheme, are functions of the URL.
- Set objects of the opener and the banner registry: they are identity numbers into a store, so that the map and the closures can refer to one object; closing a banner arrives as a later event.
- One-branch decision tables (startup routing, deeplinks, context menus, lifecycle and immersive policy): each is settled by reading one branch.
