# Remux, modelled in Dafny

Remux serves coding agents to a phone or browser. This project models the parts of it whose
correctness depends on whole runs, on interleavings or on arithmetic, and proves what those
parts promise.

| file | what it models |
|---|---|
| `Maintenance.dfy`, `Versions.dfy` | the agent auto-update transaction: its stages, rollback, deferral, quiet time, and the failure and hold memory that outlives a run |
| `RpcPeer.dfy` | the extension RPC peer: JSON-RPC 2.0 correlation (sections 4 and 5 of the JSON-RPC 2.0 specification) with ordered progress frames and held-back replies |
| `Calendar.dfy`, `Text.dfy` | day counts to Gregorian dates, and timestamps in the form of section 5.6 of RFC 3339 |
| `FileTree.dfy` | the visible rows of the file tree, and the paths to refresh |
| `Notifications.dfy` | push audiences and their receipts, through crashes |
| `TabMigration.dfy`, `TabStore.dfy` | moving Narrate tabs into the editor, and the tab store around it |
| `Paths.dfy` | lexical path normalization and joining |
| `Runs.dfy` | runs of a machine, event by event, as the two modules on notifications and retries use them |
| `RequestRetry.dfy` | which requests may be sent again after a reconnect |
| `ExtensionLogs.dfy` | log rotation, the ring of recent lines, and batches for subscribers |
| `ResourceKeys.dfy` | printing, checking and parsing agent resource keys |

`dafny verify dfyconfig.toml` checks everything.

How effects are modelled:

- A call to the outside (a command, the registry, the clock, the network) is a method that picks
  its answer with `*`. Its contract is all its callers know, so the results hold for every answer.
  The contracts assumed of the update seams: `git status` reports exactly whether the two watched
  files differ from the index; `git checkout` restores them when it succeeds; `npm install` without
  a spec leaves them alone when it succeeds; the two `npm run` checks leave the workspace alone;
  building touches only `dist`; a copy that succeeds is exact. A seam that fails may leave what it
  works on in any state.
- Concurrency is interleaving. Where the original holds a lock or runs between two awaits, the
  model takes one step; at each point where the original lets others run, `Elsewhere` or `Await`
  runs any others.

What turned out not to hold as one might read it, with the exact condition:

- Timestamps read back, and have the fixed 24-character form, exactly for the years 0 to 9999
  (`Calendar.TimestampRoundTrip`, `Calendar.YearTenThousandIsLost`).
- A push can be repeated without a removal in between. After a removal, with receipt writes that
  succeed, it can exactly when a delivery was still waiting (`Notifications.AtMostOnceIffNoneWaits`).
  After a crash, it can exactly when it had been made and its receipt was not on disk
  (`Notifications.CrashIsHarmlessIffCovered`). Failed writes do no other harm
  (`Notifications.AtMostOneAttempt`), and both situations occur (`Notifications.RemovalCanOvertake`,
  `Notifications.PushCanPrecedeReceipt`).
- The queue loop that collects the directories to refresh ends exactly when no way down from the
  root through open, loaded directories comes back to one it has been through
  (`FileTree.LoopEndsIffNoCycle`, `FileTree.SelfListedNeverEnds`).
- Joining paths is associative exactly when the later parts, joined first, lose no `..` by being
  clamped at the root (`Paths.JoinAssociatesIff`, `Paths.ClampingSplitsJoins`).
- Opening a resource again selects the tab that shows it (`TabStore.Reopen`). After opening one, a
  tab shows it, unless a new tab had no resource id to show it by, or the tab it was opened from
  belongs to another extension: that tab is retargeted but keeps its extension, need not show the
  resource, and then the resource opened again gets a tab of its own (`TabStore.OpenShows`,
  `TabStore.RetargetedIsNotFound`, `TabStore.RetargetedAcrossExtensions`).
- `selectTab` does not check that the tab exists, and the store is consistent afterwards exactly
  when it does (`TabStore.Store.SelectTab`, `TabStore.SelectionOfClosedTab`).
- When the last save of an update run fails, the run is reported as skipped although it may have
  upgraded; from then on this process touches nothing (`Maintenance.FailedSaveStopsProcess`).

## Model

| member | source | states |
|---|---|---|
| `Maintenance.Driver.Execute` | crates/remux/src/maintenance.rs:306-576 | for every choice of seam results the story of a run is sound: Skipped, NoOp and Plan leave the workspace untouched, Deferred and RolledBack leave pin, lockfile and dist as they were, a recovery that was not whole ends in Held, Upgraded means every planned act succeeded and the pin is the target; acts are taken only on clean watched files and in lawful order; every quiet gate was passed with the quiet period elapsed and, unless asked for at once, the window open; a disabled run, or one outside the window, is skipped; NoOp means the pin was the target that registry and CLI determine, acting that it was not; each outcome says what becomes of the failure count and the hold; a hold is one that the registry, as it was, keeps |
| `Maintenance.Driver.Perform` | crates/remux/src/maintenance.rs:348-576 | the same for a run that may begin |
| `Maintenance.Driver.Undertake` | crates/remux/src/maintenance.rs:448-576 | the same for a run whose target is settled |
| `Maintenance.Driver.Transact` | crates/remux/src/maintenance.rs:448-575 | the same for the stages that touch the workspace; a Deferred run leaves the count as it was |
| `Maintenance.Driver.ActivateAndCommit` | crates/remux/src/maintenance.rs:526-575 | the same from the second quiet check to the end |
| `Maintenance.Driver.Run` | crates/remux/src/maintenance.rs:245-274 | a run beside another changes nothing; the story of any other is sound; the inner outcome is reported exactly when its save succeeded, else the run counts as skipped and leaves an error; with such an error a run takes no act and the error stays; a dry run changes nothing |
| `Maintenance.Driver.Record` | crates/remux/src/maintenance.rs:256-271 | recording keeps the failure memory; a save that succeeds stores it and reports the outcome itself, one that fails is remembered and reported |
| `Maintenance.RecordedIsSound` | crates/remux/src/maintenance.rs:256-271 | recording a run does not change its story |
| `Maintenance.Lifetime` | crates/remux/src/maintenance.rs:211-274 | any number of runs, restarts and deaths from a fresh installation makes a chronicle of files, memory and store, each entry following from the one before, with the hold invariant throughout |
| `Maintenance.OneEntry` | crates/remux/src/maintenance.rs:211-274 | what a run, a restart or a death does to files, memory and store |
| `Maintenance.FilesOutlastFailures` | crates/remux/src/maintenance.rs:663-761 | over any stretch of a lifetime in which no run upgraded, died, or was held without a whole recovery or after a commit attempt, pin, lockfile and dist are what they were at its start |
| `Maintenance.FailedSaveStopsProcess` | crates/remux/src/maintenance.rs:264-271 | once a save has failed, no later run of the same process takes an act or touches a file |
| `Maintenance.DirtyFilesStopRuns` | crates/remux/src/maintenance.rs:352-364 | while the watched files differ from the index, as a process that died in a run may leave them, runs and restarts take no act and leave the workspace alone |
| `Maintenance.FailuresAddUp` | crates/remux/src/maintenance.rs:719-767 | without a success or another target, every failure of a target is counted, in memory and in the store, through skips, deferrals, holds, restarts and deaths |
| `Maintenance.ThirdFailureIsHeld` | crates/remux/src/maintenance.rs:719-748 | in such a stretch the third failure of a target is held, and there is no fourth |
| `Maintenance.RestartIsGuarded` | crates/remux/src/maintenance.rs:448-541 | a restart not preceded by a restoring step is preceded by exactly: verified pin, both source checks, quiet gate, backup, build, second quiet gate, all successful |
| `Maintenance.CommitIsLast` | crates/remux/src/maintenance.rs:535-573 | a commit attempt comes only after a passing probe and everything before it, and nothing follows it |
| `Maintenance.RecoveryOnlyRestores` | crates/remux/src/maintenance.rs:672-701 | a recovery starts with a restoring step and only restores or restarts |
| `Maintenance.QuietPeriodWasObserved` | crates/remux/src/maintenance.rs:493-514 | with a clock that never runs backwards, a gate passed with no recorded activity has waited the whole quiet period, in which every reading succeeded, was fresh, and showed no turn, message, compaction, recovery or blocker |
| `Maintenance.DisturbancesPrecedeQuiet` | crates/remux/src/maintenance.rs:578-602 | every busy, stale or failed reading lies before the moment quiet is counted from |
| `Maintenance.Driver.Quiet` | crates/remux/src/maintenance.rs:578-609 | a check passes exactly when its reading succeeded, shows nothing going on and is at most a minute old, and the period has elapsed since the reported activity, or else since the last reading that was not so; such a reading is where quiet is counted from next |
| `Maintenance.Driver.InWindow` | crates/remux/src/maintenance.rs:281-295 | open exactly when the minute lies in the stretch from start to end, counted around the day |
| `Maintenance.Driver.AwaitQuiet` | crates/remux/src/maintenance.rs:493-514 | the loop ends with a passed gate, the window open at every check; or it gives up, when the window closes or at once when it is not to wait, with everything restored, or held |
| `Maintenance.Driver.PinAndVerifySources` | crates/remux/src/maintenance.rs:448-492 | either the pin is the target and both checks passed with dist untouched, or the run was unwound |
| `Maintenance.Driver.BackupAndBuild` | crates/remux/src/maintenance.rs:515-525 | either the backup holds the old dist, or the run was unwound |
| `Maintenance.Driver.Recheck` | crates/remux/src/maintenance.rs:526-534 | the second gate is passed exactly when a new reading is quiet with the window open; otherwise the run was unwound |
| `Maintenance.Driver.RestartAndProbe` | crates/remux/src/maintenance.rs:535-545 | either the probe passed, or the run was unwound |
| `Maintenance.Driver.CommitPin` | crates/remux/src/maintenance.rs:546-573 | a failed commit is held and restores nothing; otherwise the failure memory is clear |
| `Maintenance.Driver.Failure` | crates/remux/src/maintenance.rs:719-748 | the count restarts with a new target; held at once when asked to or at the third failure, else rolled back |
| `Maintenance.Driver.Fail` | crates/remux/src/maintenance.rs:702-718 | rolled back exactly when the recovery was whole, nothing had been activated and it is not the third failure; else held |
| `Maintenance.Driver.Rollback` | crates/remux/src/maintenance.rs:672-701 | every part is attempted, and success means all parts succeeded and the files are the committed and backed-up ones |
| `Maintenance.Driver.RestorePin` | crates/remux/src/maintenance.rs:663-671 | success means both watched files are the committed ones |
| `Maintenance.Driver.ReactivatePrevious` | crates/remux/src/maintenance.rs:683-695 | the restart happens even when the CLI cannot be pointed back |
| `Maintenance.FileNameOf` | crates/remux/src/maintenance.rs:684-689 | the CLI version restored is the last component of its path |
| `Maintenance.Driver.DeferRestore` | crates/remux/src/maintenance.rs:749-761 | deferred exactly when the recovery was whole, with the failure memory untouched; else held |
| `Maintenance.Driver.FailAt` | crates/remux/src/maintenance.rs:702-718 | with the flags the code passes for each stage, a failed act is unwound |
| `Maintenance.Driver.DeferAt` | crates/remux/src/maintenance.rs:749-761 | with the flags the code passes, a failed quiet gate is unwound |
| `Maintenance.Driver.CheckHold` | crates/remux/src/maintenance.rs:317-347 | a held run ends at once, reporting its hold, exactly unless the registry could be read and gives a reason to look again |
| `Maintenance.UnchangedRegistryKeepsHold` | crates/remux/src/maintenance.rs:317-346 | a registry that offers what it did when the held target was chosen does not reopen it |
| `Maintenance.OtherTargetReopens` | crates/remux/src/maintenance.rs:321-331 | another compatible target reopens a hold |
| `Maintenance.HoldIsShut` | crates/remux/src/maintenance.rs:719-748 | a hold made by a run is one that the registry, as it was, keeps |
| `Maintenance.NewerReleaseReopens` | crates/remux/src/maintenance.rs:327-339 | a release greater than every one seen then does |
| `Maintenance.Driver.Schedule` | crates/remux/src/maintenance.rs:306-347 | a run that is disabled, outside the window or with a damaged store is skipped |
| `Maintenance.Driver.Preconditions` | crates/remux/src/maintenance.rs:352-393 | past them the watched files are clean, all three probes for a merge or rebase found none, and the state has been saved |
| `Maintenance.Driver.InstallClis` | crates/remux/src/maintenance.rs:394-409 | the run goes on only when both updates succeeded, with the version read after them; only the two CLI versions in the state change |
| `Maintenance.Driver.Resolve` | crates/remux/src/maintenance.rs:411-444 | the target is the one that the registry's answer and the CLI determine; NoOp exactly for a pin on it; a held target ends the run with its hold kept; another drops the hold without changing how its next failure counts; a failed read changes none of them |
| `Maintenance.Driver.FindTarget` | crates/remux/src/maintenance.rs:411-420 | the newest release seen is remembered, and the target is found exactly when there is one |
| `Maintenance.Driver.Compare` | crates/remux/src/maintenance.rs:426-444 | a pin on target clears the failures and ends the run; any other goes on |
| `Maintenance.Driver.Prepare` | crates/remux/src/maintenance.rs:351-444 | the same for stages 1 to 3 together |
| `Maintenance.Driver.PlanOnly` | crates/remux/src/maintenance.rs:610-662 | a dry run plans the target a run would choose from the versions it read, reports the pin there is, and reports quiet as blocked exactly when a quiet gate would not pass |
| `Maintenance.Driver.constructor` | crates/remux/src/maintenance.rs:212-223 | an unreadable state is remembered as an error, in a default state |
| `Versions.TargetIsGreatest` | crates/remux/src/maintenance.rs:818-830 | there is a target exactly when the CLI line has a version and some release a patch no greater than its patch, and it is the greatest such release |
| `Versions.GreatestOf` | crates/remux/src/maintenance.rs:811-817 | the result is an entry with a version, none has a greater one, and there is none only without versions |
| `Versions.GreatestIsLast` | crates/remux/src/maintenance.rs:811-817 | of equally great entries it is the last |
| `Versions.FirstVersionOf` | crates/remux/src/maintenance.rs:818-822 | the first word that is a version, if there is one |
| `Versions.VersionOfTriple` | crates/remux/src/maintenance.rs:795-810 | three numbers with dots between them are a version exactly when each is below 2^32 |
| `Versions.VersionIsTriple` | crates/remux/src/maintenance.rs:795-810 | nothing else is a version |
| `Versions.LeadingVersion` | crates/remux/src/maintenance.rs:818-822 | a CLI line that starts with a version is of that version |
| `RpcPeer.Peer.Begin` | crates/remux-extension-rpc/src/lib.rs:72-105 | refused exactly when 32 are pending; otherwise a request under an id never used before |
| `RpcPeer.Peer.NextId` | crates/remux-extension-rpc/src/lib.rs:79-83 | the id is that of no earlier request |
| `RpcPeer.Peer.Resolve` | crates/remux-extension-rpc/src/lib.rs:136-188 | a message is owned exactly when it is a response or a progress frame, told by its fields, for an id with the prefix; it takes that request one step and leaves all others alone |
| `RpcPeer.MeaningOfResponse` | crates/remux-extension-rpc/src/lib.rs:143-162 | a response with a non-null error means that error, code, message and data as given or by default; any other means its result, or null |
| `RpcPeer.MeaningOfFrame` | crates/remux-extension-rpc/src/lib.rs:190-206 | a progress frame means the id, sequence and value of its parameters |
| `RpcPeer.MeaningIsOnTheWire` | crates/remux-extension-rpc/src/lib.rs:136-151 | nothing else means anything |
| `RpcPeer.ErrorFromReports` | crates/remux-extension-rpc/src/lib.rs:159-160 | an error is read from the fields of its object, leniently |
| `RpcPeer.FramesOfReply` | crates/remux-extension-rpc/src/lib.rs:163-167 | frames are announced exactly by a 64-bit natural number in a successful result |
| `RpcPeer.PlainReplyEnds` | crates/remux-extension-rpc/src/lib.rs:168-186 | an error ends its request at once, and so does a result that announces no frames or is for a request that wants none |
| `RpcPeer.Peer.ResolveTerminal` | crates/remux-extension-rpc/src/lib.rs:156-187 | a reply is delivered, or held back while announced frames are missing, or turned into an error when too many came |
| `RpcPeer.Peer.ResolveProgress` | crates/remux-extension-rpc/src/lib.rs:190-264 | a frame is forwarded only if it is the next one, of legal size, wanted and there is room; otherwise the request fails; the last announced frame releases the reply |
| `RpcPeer.Peer.Settle` | crates/remux-extension-rpc/src/lib.rs:256-277 | the entry goes and the reply enters an empty channel |
| `RpcPeer.Peer.Abandon` | crates/remux-extension-rpc/src/lib.rs:266-270 | removing an entry never takes back a reply that came first |
| `RpcPeer.Peer.Finish` | crates/remux-extension-rpc/src/lib.rs:119-132 | the caller gets the request's one reply, or the timeout error with the entry gone |
| `RpcPeer.StepKeepsSound` | crates/remux-extension-rpc/src/lib.rs:136-264 | forwarded frames are numbered from 0 without gaps and a held reply still lacks frames, after every step |
| `RpcPeer.OutcomeIsFinal` | crates/remux-extension-rpc/src/lib.rs:72-270 | over any calls, frames are only added, a request that has its reply gets no other, and one given up gets none |
| `RpcPeer.ReplyPositionDoesNotMatter` | crates/remux-extension-rpc/src/lib.rs:136-264 | wherever among its n frames the reply announcing n arrives, all n are forwarded and then the reply is delivered |
| `RpcPeer.OwnTrace` | crates/remux-extension-rpc/src/lib.rs:152-264 | while others begin, receive messages and time out, a request goes through its own events as if alone |
| `RpcPeer.OwnLastMove` | crates/remux-extension-rpc/src/lib.rs:152-264 | one more call takes a request one step if it is a message for it, and else leaves it alone |
| `RpcPeer.InterleavingDoesNotMatter` | crates/remux-extension-rpc/src/lib.rs:72-270 | the same outcome for any position of the reply, however other requests begin, receive messages and time out in between |
| `RpcPeer.AnyCall` | crates/remux-extension-rpc/src/lib.rs:72-270 | every call of a peer takes its requests one step and keeps it valid |
| `RpcPeer.Serve` | crates/remux-extension-rpc/src/lib.rs:72-270 | whatever calls a peer receives, its requests go through one of the traces the results are about, with at most 32 pending |
| `Calendar.DaysRoundTrip` | crates/remux/src/time.rs:33-45 | for every integer, the date is a Gregorian date and its day count is the integer |
| `Calendar.DateRoundTrip` | crates/remux/src/time.rs:33-45 | every Gregorian date is the date of its day count |
| `Calendar.CivilOfTomorrow` | crates/remux/src/time.rs:33-45 | day n + 1 is the calendar successor of day n |
| `Calendar.CivilCountsOn` | crates/remux/src/time.rs:33-45 | the formula agrees with counting days one at a time over any distance |
| `Calendar.EpochIsDayZero` | crates/remux/src/time.rs:33-45 | day 0 is 1970-01-01 |
| `Calendar.YearOfEraOf` | crates/remux/src/time.rs:36-39 | the corrected division yields exactly the year and the day of the year |
| `Calendar.MonthOfYear` | crates/remux/src/time.rs:40-42 | the linear month formula finds the month that contains the day |
| `Calendar.LeapDay` | crates/remux/src/time.rs:37-43 | the years with a 366th day are the leap years |
| `Calendar.FourDigitYears` | crates/remux/src/time.rs:29-45 | which day counts have a four-digit year |
| `Calendar.TimestampRoundTrip` | crates/remux/src/time.rs:17-30 | the text reads back as the instant it was made from for years 0 to 9999, and is not of the fixed form for any other |
| `Calendar.YearTenThousandIsLost` | crates/remux/src/time.rs:17-30 | the first instant of the year 10000 does not read back |
| `Calendar.ParsedTextIsTimestamp` | crates/remux/src/time.rs:19-30 | every text that reads as a timestamp is the timestamp of what it reads as |
| `Calendar.OtherYearsHaveNoShape` | crates/remux/src/time.rs:17-30 | outside those years the text does not have the documented form |
| `FileTree.CollectExpandedSubtreePaths` | app/src/files/filesStore.ts:451-477 | wherever the queue loop can end, it does, and collects, as a multiset, the root if loaded and the visible rows that are expanded, loaded directories |
| `FileTree.LoopEndsIffNoCycle` | app/src/files/filesStore.ts:451-477 | the loop ends exactly when no way down from the root through open, loaded directories comes back to one it has been through |
| `FileTree.SelfListedNeverEnds` | app/src/files/filesStore.ts:451-477 | a store on which the loop does not end: an open directory that lists itself |
| `FileTree.FiniteIffNoCycle` | app/src/files/filesStore.ts:372-415 | so do the ways down that the depth-first rows follow |
| `FileTree.LongerChildrenEnd` | app/src/files/filesStore.ts:451-477 | when each listed child has a longer path than its directory, both walks end |
| `FileTree.ServeOne` | app/src/files/filesStore.ts:461-474 | one turn of the loop neither loses nor gains a path, and leaves less to reach |
| `FileTree.EnqueueOpen` | app/src/files/filesStore.ts:469-473 | exactly the open directories of a listing join the queue, in order |
| `FileTree.ServeHead` | app/src/files/filesStore.ts:461-474 | what a queue has to collect is its head, if loaded, and what the next queue has to |
| `FileTree.RowsNameReached` | app/src/files/filesStore.ts:372-415 | the depth-first rows name exactly the loaded directories reached through open ones |
| `FileTree.WalksAgree` | app/src/files/filesStore.ts:350-477 | the breadth-first and depth-first walks collect the same paths |
| `FileTree.RowTellsWhatIsBelow` | app/src/files/filesStore.ts:385-414 | a row shows its entry and what is below it: nothing under anything but an open directory or link to one, there its listing; the count, the marks and whether it has children agree with the rows shown |
| `FileTree.OutermostRows` | app/src/files/filesStore.ts:372-415 | the rows at the outermost depth are the entries, in order |
| `FileTree.VisibleRowsShowListing` | app/src/files/filesStore.ts:350-370 | the outermost visible rows are the listing of the current directory |
| `FileTree.RowsWellShaped` | app/src/files/filesStore.ts:372-415 | every nested row's parent path is that of the nearest earlier row one level up |
| `FileTree.VisibleRowsWellShaped` | app/src/files/filesStore.ts:350-370 | the same of the visible rows, and outermost rows name the current directory |
| `FileTree.CollapseVisibleFolder` | app/src/files/FilesOverview.tsx:274-279 | collapsing a folder shown once removes exactly the stretch of deeper rows after it; every other row and the folder's index stay |
| `FileTree.CollapseRemovesBlock` | app/src/files/filesStore.ts:372-415 | the same for the rows of any entries |
| `FileTree.CollapseOfHidden` | app/src/files/filesStore.ts:372-415 | collapsing a path that is not shown changes no row |
| `FileTree.BlockIsDeeper` | app/src/files/filesStore.ts:400-413 | the block is the longest stretch of deeper rows |
| `Notifications.BetweenRemovals` | crates/remux/src/notifications.rs:391-561 | in every run from the first start, from a point at which no delivery of an id waits until the next removal it is attempted at most once per client, through resubscription, concurrency and failed writes, when receipt writes succeed or no crash loses the receipt of a push |
| `Notifications.AtMostOneAttempt` | crates/remux/src/notifications.rs:504-561 | the same from any state, with writes that may fail, as long as no crash loses the receipt of a push |
| `Notifications.SavedReceiptsCoverCrashes` | crates/remux/src/notifications.rs:547-556 | no crash does when the receipt writes succeed, whatever other writes do |
| `Notifications.LaterWriteCovers` | crates/remux/src/notifications.rs:850-882 | none does after any later write that succeeds |
| `Notifications.CrashIsHarmlessIffCovered` | crates/remux/src/notifications.rs:850-882 | after a crash, at most one attempt in every continuation, if and only if no push had been made or its receipt is on disk |
| `Notifications.LostReceiptRepeats` | crates/remux/src/notifications.rs:504-561 | a continuation with a second attempt, whenever a crash loses the receipt of a push |
| `Notifications.PushCanPrecedeReceipt` | crates/remux/src/notifications.rs:547-556 | a run from the first start that reaches such a crash |
| `Notifications.AtMostOnceIffNoneWaits` | crates/remux/src/notifications.rs:444-561 | after a removal, with receipt writes that succeed, at most one attempt in every continuation, if and only if no delivery is waiting |
| `Notifications.WaitingDeliveryRepeats` | crates/remux/src/notifications.rs:444-561 | a run with two attempts, from any state with a waiting delivery |
| `Notifications.RemovalCanOvertake` | crates/remux/src/notifications.rs:444-526 | a run from the first start that reaches a removal with a delivery waiting |
| `Notifications.StepKeepsAtMostOne` | crates/remux/src/notifications.rs:391-561 | every step keeps: one delivery at most, its receipt in memory; a failed write too, and a crash unless it loses the receipt of a push |
| `Notifications.RunKeepsBacked` | crates/remux/src/notifications.rs:504-561 | runs with receipt writes that succeed keep receipts on disk before pushes |
| `Notifications.ReachableIsReady` | crates/remux/src/notifications.rs:391-424 | every run satisfies what the results ask of their starting point |
| `Notifications.UnreceiptedIsPushed` | crates/remux/src/notifications.rs:504-556 | a follower without a receipt is sent the notification |
| `Notifications.WhoHears` | crates/remux/src/notifications.rs:504-531 | a notification is taken on for exactly the members of its audience, less the followers who have had it; one-shot members go, followers get their receipt, other audiences stay |
| `Notifications.WhatSurvives` | crates/remux/src/notifications.rs:850-882 | exactly the lasting audiences of agent conversations outlive a crash, as saved |
| `Notifications.OthersLeaveTask` | crates/remux/src/notifications.rs:504-561 | other calls leave a task's deliveries alone |
| `Notifications.NoteAudience` | crates/remux/src/notifications.rs:504-526 | the pass over an audience delivers to exactly those without a receipt, notes it for all, and drops one-shot members |
| `Notifications.DropBuckets` | crates/remux/src/notifications.rs:444-458 | exactly the audiences of the given keys go, and whether a conversation was among them is known |
| `Notifications.LoadAudiences` | crates/remux/src/notifications.rs:1039-1060 | exactly the stored lasting conversation audiences are loaded |
| `Notifications.Manager.RecordAudience` | crates/remux/src/notifications.rs:391-424 | subscribing is the recording step, followed by a save for conversations |
| `Notifications.Manager.RemoveAudiences` | crates/remux/src/notifications.rs:444-460 | removing is the removal step, followed by a save if a conversation went |
| `Notifications.Manager.TakeOn` | crates/remux/src/notifications.rs:504-526 | a notification is taken on for exactly its recipients |
| `Notifications.Manager.Persist` | crates/remux/src/notifications.rs:850-882 | the store holds what memory held, or what it held before |
| `Notifications.Manager.PersistReceipts` | crates/remux/src/notifications.rs:547-553 | the same, before the deliveries of a notification |
| `Notifications.Manager.DeliverOne` | crates/remux/src/notifications.rs:554-556 | one delivery, at most one attempt |
| `Notifications.Manager.DeliverAll` | crates/remux/src/notifications.rs:554-556 | with others running in between, every delivery is carried out |
| `Notifications.Manager.HandleNotification` | crates/remux/src/notifications.rs:463-561 | a notification is handled to its end as a run of the machine; a conversation's receipts are written on the way, and with nobody to tell nothing is written |
| `Notifications.Manager.Restart` | crates/remux/src/notifications.rs:1039-1060 | a new process is the crash step |
| `TabMigration.MigrateNarrateFileTabs` | app/src/browser/narrateTabMigration.ts:23-94 | without the editor's handler nothing changes; otherwise, for any ids, the result is what the records by id make of the tabs, for distinct ids it is the tab-by-tab migration with exactly the views of tabs that took on a group reloaded, and the active id is unchanged |
| `TabMigration.MigrationKeepsIds` | app/src/browser/narrateTabMigration.ts:52-93 | whatever the ids, tabs are dropped or replaced by ones with the same id |
| `TabMigration.NoNarrateLeft` | app/src/browser/narrateTabMigration.ts:34-94 | no Narrate markdown tab is left |
| `TabMigration.OneEditorTabPerFile` | app/src/browser/narrateTabMigration.ts:57-92 | each migrated path has exactly one tab in the editor's document view |
| `TabMigration.ActiveTabStays` | app/src/browser/narrateTabMigration.ts:58-62 | the active tab stays, in place, under its id |
| `TabMigration.PendingNavigationStays` | app/src/browser/narrateTabMigration.ts:63-68 | a group has a pending navigation afterwards exactly when it had one |
| `TabMigration.MigrationIsIdempotent` | app/src/browser/narrateTabMigration.ts:23-94 | migrating twice is migrating once |
| `TabMigration.NothingToMigrate` | app/src/browser/narrateTabMigration.ts:37-39 | without Narrate tabs nothing changes |
| `TabMigration.OtherTabsStay` | app/src/browser/narrateTabMigration.ts:42-50 | a tab that is neither Narrate's nor the document view's, or of a file that Narrate does not show, stays as it is |
| `TabMigration.MovedTabHolds` | app/src/browser/narrateTabMigration.ts:69-75 | a tab that stands for a file keeps its id, file and time, and is the document viewer's |
| `TabMigration.EditorViewIsOffered` | app/src/browser/narrateTabMigration.ts:28-32 | the view is that of the first editor's first document viewer, if the editor has it |
| `TabMigration.OfferedIsEditorView` | app/src/browser/narrateTabMigration.ts:28-32 | where there is one, it is taken |
| `TabMigration.NarrateTabs` | app/src/browser/narrateTabMigration.ts:96-102 | exactly Narrate's main-view tabs on files whose name ends in one of three extensions, in either case |
| `TabMigration.FilePathIsTrimmed` | app/src/browser/narrateTabMigration.ts:104-113 | the path of a file tab is its resource id without the white space around it |
| `TabMigration.NarrateTabsAreGrouped` | app/src/browser/narrateTabMigration.ts:42-50 | every Narrate markdown tab has a group |
| `TabMigration.OriginOf` | app/src/browser/narrateTabMigration.ts:89-93 | every resulting tab comes from a kept one, in order |
| `TabMigration.Survivor` | app/src/browser/narrateTabMigration.ts:58-62 | the survivor is in the group, and is the active tab if the group has it |
| `TabMigration.SurvivorPrefersEditor` | app/src/browser/narrateTabMigration.ts:59-62 | without the active tab, the most recent editor tab of the group survives, else its first tab |
| `TabMigration.NavigationIsMostRecent` | app/src/browser/narrateTabMigration.ts:63-68 | a navigation taken over is the most recent pending one of the group |
| `TabMigration.MostRecent` | app/src/browser/narrateTabMigration.ts:59-61 | no tab of the group is more recent |
| `TabMigration.MostRecentIsFirst` | app/src/browser/narrateTabMigration.ts:59-61 | of equally recent tabs the first is taken |
| `TabMigration.Navigation` | app/src/browser/narrateTabMigration.ts:63-68 | the survivor's own navigation comes first, and there is one exactly when the group has one |
| `TabMigration.FindNarratePaths` | app/src/browser/narrateTabMigration.ts:34-36 | the paths are those of the Narrate tabs |
| `TabMigration.GroupTabs` | app/src/browser/narrateTabMigration.ts:41-50 | every path has exactly its tabs, in order |
| `TabMigration.GatherOne` | app/src/browser/narrateTabMigration.ts:57-87 | one more group is accounted for in the three collections, by ids and, for distinct ids, tab by tab |
| `TabMigration.Gather` | app/src/browser/narrateTabMigration.ts:52-87 | all groups are, and the active id does not change |
| `TabMigration.FinalTabs` | app/src/browser/narrateTabMigration.ts:89-93 | the last pass drops the removed ids and replaces those with a replacement, in order |
| `TabMigration.FinalIsPick` | app/src/browser/narrateTabMigration.ts:89-93 | for distinct ids it picks exactly the kept tabs, migrated |
| `TabStore.Store.CloseTab` | app/src/browser/browserStore.ts:122-141 | the tab goes, all others stay in order, the most recent takes over if it was active, and the store stays consistent |
| `TabStore.Store.MoveTab` | app/src/browser/browserStore.ts:228-247 | the tab is at the clamped place, the others keep their order |
| `TabStore.Store.OpenResource` | app/src/browser/browserStore.ts:264-328 | on reuse the most recent tab that shows the resource comes to the front, else the tab it was opened from is retargeted if that still shows what it did, else a new tab is added; the fields of each are stated one by one; consistent afterwards exactly when no new tab was given a used id |
| `TabStore.Store.Reuse` | app/src/browser/browserStore.ts:280-319 | a tab serves the target exactly when one shows it, or its origin still shows what it did |
| `TabStore.Reopen` | app/src/browser/browserStore.ts:280-298 | opening a resource that some tab shows selects such a tab and adds none |
| `TabStore.OpenShows` | app/src/browser/browserStore.ts:264-328 | after opening a resource a tab shows it, with two exceptions |
| `TabStore.RetargetedIsNotFound` | app/src/browser/browserStore.ts:300-319 | when a retargeted tab does not show the resource, the resource opened again gets a tab of its own |
| `TabStore.RetargetedAcrossExtensions` | app/src/browser/browserStore.ts:300-319 | two extensions for which that happens |
| `TabStore.Store.SelectTab` | app/src/browser/browserStore.ts:341-355 | consistent afterwards exactly when the tab exists |
| `TabStore.SelectionOfClosedTab` | app/src/browser/browserStore.ts:341-355 | a selection that leaves the store inconsistent |
| `TabStore.Store.CloseOverview` | app/src/browser/browserStore.ts:118-121 | the surface is shown exactly when a tab is active |
| `TabStore.Store.ApplyCatalog` | app/src/browser/browserStore.ts:713-756 | restore, live migration and reconciliation: the remaining tabs are exactly the migrated ones, each rebuilt or reconciled, in their order, whatever their ids; the active tab stays active if it survives; the store is consistent when the ids it starts from are distinct, and exactly when the resulting ones are |
| `TabStore.Lifetime` | app/src/browser/browserStore.ts:102-415 | through any closes, moves, opens with fresh ids, selections of open tabs, catalogs and new processes, the store is consistent and so is every session written |
| `TabStore.AnyAction` | app/src/browser/browserStore.ts:118-355 | every such action keeps the store consistent |
| `TabStore.ReadBack` | app/src/browser/browserSessionPersistence.ts:79-99 | a session read back keeps order and distinct ids, whatever tabs the parser refuses |
| `TabStore.AdaptTabs` | app/src/browser/browserStore.ts:721-732 | migration followed by rebuilding or reconciling tab by tab, in order, with distinct ids staying distinct |
| `TabStore.RebuiltTab` | app/src/browser/browserStore.ts:699-711 | a saved tab stays exactly when its extension is known, as it was but on the main view when its own is not |
| `TabStore.ReconciledTab` | app/src/browser/browserStore.ts:758-774 | an open tab stays exactly when its view is known, with a new revision at most |
| `TabStore.AdaptedKeepsOrder` | app/src/browser/browserStore.ts:699-774 | rebuilding and reconciling keep the order of the tabs |
| `TabStore.AdaptedTabs` | app/src/browser/browserStore.ts:699-774 | no tab of a known extension or view is lost in either, and none comes from nowhere |
| `TabStore.Migrate` | app/src/browser/browserStore.ts:725-727 | the active id and the order of the remaining tabs survive migration, whatever the ids |
| `TabStore.StillActive` | app/src/browser/browserStore.ts:688-690 | the active tab if it is still there; in any case a present tab, and none only without tabs |
| `TabStore.NextActiveTabId` | app/src/browser/browserStore.ts:484-486 | there is none only without tabs, and it is present |
| `TabStore.NextActiveIsMostRecent` | app/src/browser/browserStore.ts:484-486 | no tab is more recent than the one that takes over |
| `TabStore.MostRecentAmong` | app/src/browser/browserStore.ts:436-440 | the first of the most recent candidates, if there is any |
| `TabStore.ClosingIsClean` | app/src/browser/browserStore.ts:124-126 | exactly the ids other than the closed one are left |
| `TabStore.MovedIsDistinct` | app/src/browser/browserStore.ts:240-242 | taking out and putting back a tab keeps every id once |
| `TabStore.MigrationKeepsOrder` | app/src/browser/browserStore.ts:725-727 | the same of every result of migration |
| `Paths.Normalize` | crates/remux/src/paths.rs:14-40 | the loop computes the walk of the segments |
| `Paths.StackIsNormal` | crates/remux/src/paths.rs:14-40 | `..` only as a leading run of a relative result, never in an absolute one |
| `Paths.NormalIsIdempotent` | crates/remux/src/paths.rs:11-40 | normalizing twice is normalizing once |
| `Paths.NormalLeadsTheSameWay` | crates/remux/src/paths.rs:14-40 | from any base, walking the normalized relative path ends where walking the original does |
| `Paths.StackOfNormal` | crates/remux/src/paths.rs:14-40 | the normalized text is absolute exactly when the original is, and walks to the same place |
| `Paths.StackOfJoin` | crates/remux/src/paths.rs:43-51 | joining is walking one part after the other |
| `Paths.JoinIsAssociative` | crates/remux/src/paths.rs:43-51 | joining is associative for every first part and relative middle part, unless that is empty before an absolute last part |
| `Paths.JoinAssociatesIff` | crates/remux/src/paths.rs:43-51 | for all three parts: associative exactly when the later parts are relative, or do not lead above their start, or the first part is the root |
| `Paths.ClampingSplitsJoins` | crates/remux/src/paths.rs:43-51 | three parts that do not associate: `a`, `/..` and `b` |
| `Paths.ClampMatters` | crates/remux/src/paths.rs:21-27 | clamping a walk at the root changes where it leads exactly when it leads above its start and does not begin at the root |
| `Paths.WalkReduced` | crates/remux/src/paths.rs:18-30 | walking reduced segments is walking the original ones, from anywhere |
| `RequestRetry.RoutingIsSafe` | app/src/remote/RemuxConnectionProvider.tsx:668-748 | over all failures and reconnects: at most one hand-over of non-durable commands, jobs and subscriptions, two of queries, repeats of durable commands only to the instance first recorded, at most eight permits, all returned |
| `RequestRetry.ClosedBetweenHandOvers` | app/src/remote/RemuxConnectionProvider.tsx:715-742 | between any two hand-overs of one request its connection has closed |
| `RequestRetry.StepKeepsInvariant` | app/src/remote/RemuxConnectionProvider.tsx:693-747 | every stretch between awaits keeps the accounts of every request and of the permits |
| `RequestRetry.HandOverKeepsInvariant` | app/src/remote/RemuxConnectionProvider.tsx:696-714 | so does handing a request to a client |
| `RequestRetry.LeaveKeepsInvariant` | app/src/remote/RemuxConnectionProvider.tsx:743-747 | so does leaving, which returns the permit |
| `RequestRetry.Router.RouteRequest` | app/src/remote/RemuxConnectionProvider.tsx:668-748 | one call's loop, with any others at each await, is a run of the machine; the bounds hold of what it sent, and its permit is back when it ends |
| `RequestRetry.Router.Resume` | app/src/remote/RemuxConnectionProvider.tsx:696-714 | the request is handed to the current instance, unless there is no client or it is a durable command first given to another instance |
| `RequestRetry.Router.Conclude` | app/src/remote/RemuxConnectionProvider.tsx:715-742 | tried again exactly when the connection closed, one is to come back, a permit is held or fewer than eight are out, and it is a query on its first try or a durable command of a known instance under protocol version 1 |
| `RequestRetry.Router.Finish` | app/src/remote/RemuxConnectionProvider.tsx:743-747 | the permit goes back with the request's end |
| `ExtensionLogs.RotateLogs` | crates/remux/src/logs.rs:724-733 | for any number of rotations, every file moves up one and only the oldest is lost |
| `ExtensionLogs.JoinedAfterShift` | crates/remux/src/logs.rs:724-733 | after a rotation the joined files are the joined files without the oldest |
| `ExtensionLogs.JoinedAfterWrite` | crates/remux/src/logs.rs:561-565 | a write adds to the end of the joined files |
| `ExtensionLogs.SuffixOfAppended` | crates/remux/src/logs.rs:555-565 | dropping from the front and adding at the end keeps a suffix |
| `ExtensionLogs.ExtensionLog.Append` | crates/remux/src/logs.rs:524-588 | the joined files stay a suffix of all that was written, the ring is the last 500 lines, drained and pending are the lines of live subscription, and pending lines have a flush scheduled |
| `ExtensionLogs.ExtensionLog.WriteFile` | crates/remux/src/logs.rs:540-565 | a line is added, at the cost of the oldest file exactly when it would not fit |
| `ExtensionLogs.ExtensionLog.Rotate` | crates/remux/src/logs.rs:555-560 | the current file is empty and only the oldest is lost |
| `ExtensionLogs.ExtensionLog.PushRing` | crates/remux/src/logs.rs:567-571 | the ring is the last 500 lines |
| `ExtensionLogs.ExtensionLog.FlushPending` | crates/remux/src/logs.rs:590-618 | all that was pending goes out, once |
| `ExtensionLogs.ExtensionLog.Snapshot` | crates/remux/src/logs.rs:620-634 | the last lines, as many as asked for and kept |
| `ExtensionLogs.ExtensionLog.constructor` | crates/remux/src/logs.rs:658-680 | a new process starts from the files it finds |
| `ResourceKeys.ExecutionKeyRoundTrip` | extensions/agent/shared/native-agent-protocol.ts:90-105 | the key of every identifier is accepted, parses back to it, and not as a transcript key |
| `ResourceKeys.AnyExecutionKeyParses` | extensions/agent/shared/native-agent-protocol.ts:90-105 | any id but the empty one is read back from its key |
| `ResourceKeys.TranscriptKeyRoundTrip` | extensions/agent/shared/native-agent-protocol.ts:94-114 | the key of every identifier and window within the length limit is accepted, parses back to both, and not as an execution key |
| `ResourceKeys.DecodeEncoded` | extensions/agent/shared/native-agent-protocol.ts:1291-1298 | decoding undoes percent-encoding on all text |
| `ResourceKeys.Utf8RoundTrip` | extensions/agent/shared/native-agent-protocol.ts:1291-1298 | every character is read back from its UTF-8 bytes |
| `ResourceKeys.EncodedIsPlain` | extensions/agent/shared/native-agent-protocol.ts:90-99 | encoded text is letters, digits, a few marks and escapes |
| `ResourceKeys.EncodedIdentifier` | extensions/agent/shared/native-agent-protocol.ts:1246-1252 | an encoded identifier is a word of the key grammar without a colon |
| `ResourceKeys.AcceptPair` | extensions/agent/shared/native-agent-protocol.ts:1282-1284 | an encoded id and a window form an accepted transcript key |
| `ResourceKeys.AcceptedKeyHasPrefix` | extensions/agent/shared/native-agent-protocol.ts:1268-1289 | an accepted key is one of two fixed ones, or has one of eleven prefixes and a letter or digit after it, and is not too long |
| `ResourceKeys.ExecutionKeysAccepted` | extensions/agent/shared/native-agent-protocol.ts:1276-1278 | a key with the execution prefix is accepted exactly when a word follows |
| `ResourceKeys.TranscriptKeysAccepted` | extensions/agent/shared/native-agent-protocol.ts:1282-1284 | a key with the execution-transcript prefix is accepted exactly when an id and a window follow |
| `ResourceKeys.WordKeysAccepted` | extensions/agent/shared/native-agent-protocol.ts:1273-1275 | keys of six kinds are accepted with a word after the prefix |
| `ResourceKeys.PairKeysAccepted` | extensions/agent/shared/native-agent-protocol.ts:1279-1281 | keys of two kinds are accepted with a pair of words after it |
| `ResourceKeys.StrandKeysAccepted` | extensions/agent/shared/native-agent-protocol.ts:1285-1287 | strand transcripts are accepted with three |
| `ResourceKeys.CharacterClasses` | extensions/agent/shared/native-agent-protocol.ts:1273-1287 | which characters the grammar admits |
| `ResourceKeys.ParsePair` | extensions/agent/shared/native-agent-protocol.ts:107-114 | the parser splits at the first colon |

## Left out

- The production adapters of the updater (processes, npm, symlinks, probes), systemd, `/proc`, HTTP and the user interface: foreign effects.
- `guardian.rs`, `supervise.rs`, `watchdog.rs`, `monitor.rs`, `auth.rs`, `config.rs`, `runtime.rs`, `remuxRpcClient.ts`, `remux-compute` and the response parsers: they would only add easier members.
- Maintenance.Driver.Execute: a run that is still waiting after a given number of quiet readings has no outcome; that the wait ends at all depends on the clock and the agent. Log lines, the texts of plan steps and the prefixes of restore errors are not modelled.
- Maintenance.Lifetime: a process that dies in a run may leave any files, which is more than the acts taken by then could do; nothing is said of what an interrupted restart leaves running.
- Maintenance.Driver.Save: a failed save may or may not have replaced the file, and a file that cannot be read is an arbitrary error.
- RpcPeer.Peer.NextId: the 64-bit id counter does not wrap around.
- RpcPeer.Peer.Resolve: a poisoned lock and the failure to encode a value are left out; JSON numbers are integers.
- Calendar.DaysRoundTrip: integers are unbounded; the 64-bit overflow of the original at the ends of its range is not modelled.
- The other actions of the file store (loading, errors, refresh timers, request ids).
- Notifications.Manager.HandleNotification: a crash in the middle of a call is a step of the machine, not of this method; origins, times and texts of notifications, client registration and the choice whether a client is looking are left out, and audiences are keyed by the eight parts instead of their joined string.
- TabStore.Store.OpenResource: trimming and defaulting of targets and waiting for the catalog are done before; the resource key is an arbitrary function of extension, view, kind and id, the id that a draft or session gets is an input, and texts, icons, addresses and revisions are one opaque field.
- TabStore.Store.ApplyCatalog: with repeated ids, which of several replacements an id gets is left open, and so is which views reload; the section, the catalog's own status fields and the saving of the session are left out.
- TabMigration.AssignGroups: finding each tab's group and collecting the groups are two passes here and one in the original.
- TabStore.Lifetime: the ids of new tabs are taken to be fresh, as their clock reading and counter are meant to make them; tab updates, previews and cleared navigations, which keep all ids, are not among the actions.
- RequestRetry.Router.RouteRequest: a durable command may be retried without bound, so the loop stops after a given number of hand-overs; the registration metadata, the choice of a client and abort signals are left out.
- ExtensionLogs.ExtensionLog.Append: file operations succeed, and sizes are those of whole lines; subscribers are the set of those still connected.
- ResourceKeys.Decode: text is made of whole characters, so the half of a surrogate pair that the original refuses to encode does not arise.
