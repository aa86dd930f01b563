# A verified model of the workspace gateway's stateful core

The gateway keeps its state in other systems: Kubernetes objects, git refs, channels. This
project models the components that change such state step by step and proves what holds
after every step, also when calls fail, when a process dies between two calls, and when
several callers interleave. `dafny verify dfyconfig.toml` checks it all.

| files | what they model |
|---|---|
| `WatchFanout` | the "workspace changed" pipeline: watch drains, the hub's run loops, subscribers |
| `HelmNames`, `HelmSpec`, `HelmMigration`, `HelmStore` | the Helm release store: names, retention, crash tolerance, legacy migration, and the client that performs it |
| `Text`, `Diff3`, `GitMerge` | line splitting, the three-way line merge, conflict markers and the per-path policy |
| `Worktree`, `CommitGraph`, `Sync` | a branch sync: the changed-paths loop, the worktree it writes to, merge bases and the merge commit |
| `Staging`, `Batches`, `CloneCache`, `CloneRuns` | the placeholder commit of a branch session, batches of file operations on a worktree, and the bounded clone cache the operations run through |
| `Sandbox` | the Secret, Pod and Service of a sandbox under racing creators and deletes |
| `SessionNames`, `ChangeRequests` | session names, and the change-request protocol over concurrent requests |
| `ForgejoLog`, `Archive` | the paged commit log; stripping and unpacking archives |
| `ServicePorts`, `PodDiagnostics`, `Rollout`, `Representative` | one-pass views of services against per-name ones, deploy, pause and resume, rollback targets, a session's sandboxes |

How failures appear. A call that leaves the process may fail at any time. Where the code
returns at the first failure, a contract that speaks of the failed call speaks of a crash at
that point. A call that is reported as failed may have been carried out, unless a line under
"Left out" says otherwise. The classes count failures in a ghost field, so that their
contracts also say which errors cannot come without one.

What the proofs show to be otherwise than one would expect:

- A release named `rev-<r>-v<n>` is accepted and shares its ConfigMap with revision n of
  `<r>`; no other two releases share one (`NamesAreSharedOnlyByLookalikes`).
- The history handed to prune carries a number twice exactly when the body about to be
  written is stored already (`DuplicatesIffBodyIsThere`), as after a crash between body and
  head (`CrashBetweenBodyAndHeadDuplicatesANumber`); the store stays sound all the same
  (`EveryRunIsSound`).
- A write that follows a stopped migration keeps what it should exactly when the bodies of
  the legacy revisions are already stored (`WriteAfterStoppedMigration`).
- After a sync the base tip is an ancestor exactly when it was one before or the merged tree
  differs from the branch's own (`SyncIntegratesUnlessTreeUnchanged`); two branches that
  deleted the same file show the other case (`SameDeletionIsNotIntegrated`).
- A commit whose message is spelled like the placeholder does not close the staging area
  (`CloseSettlesUnlessMessageIsPlaceholder`, `PlaceholderMessageDoesNotClose`).
- A cached clone is not transparent in one respect: a batch that deletes the last file of a
  directory leaves the directory in the worktree. A batch that a fresh clone accepts is then
  refused through the cache exactly when such a leftover directory is in the way of an
  operation at its turn (`CacheRefusesIff`); deleting the only file of a directory and then
  writing a file in its place shows it (`LeftoverDirectoryRefuses`).
- Without faults `ResetTo` succeeds exactly for the commits that the branch reaches or that a
  usable cached clone knows, if the reset of the worktree does (`CloneCache.Manager.ResetTo`).
  So after two writes in a row the commit the second one dropped is accepted through the
  cache, and by no fresh clone (`ResetToDroppedCommit`).
- The comment on `Submit` says that an existing branch is refused. The code pushes without
  force: an existing branch is refused exactly when the base does not reach it and it is not
  the new commit already (`AcceptsUnlessRefused`, `CloneCache.Manager.Submit`); a new branch
  that stands where the base does is moved (`PlainPushFastForwards`).
- A Delete is safe in every continuation exactly when the Service exists as it begins; on a
  sandbox still being created it can leave a Service without a Pod
  (`DeleteIsSafeIffServiceExists`, `HalfMadeSandboxIsUnsafe`). A Delete of a finished one
  leaves the Service behind exactly when the Service delete fails and the Pod delete does not
  (`IgnoredDeleteErrorOrphans`), and a create reported as failed breaks the nesting exactly
  when it was carried out (`UnheardServiceOrphans`, `UnheardPodLosesItsSecret`).
- Without a total from the host, the commit log misses that more follows exactly when the
  requested window ends a page (`ForgejoLog.Log`, `FullPageHidesTheRest`).
- The comment on `StripTop` promises the archive as it is on a read error; the code returns
  the error. Link targets that merely begin like the wrapper are rewritten
  (`LinkIsKeptIff`), and unpacking and stripping disagree on some names with a leading slash
  (`NamesAgreeIff`); `LookalikesAreRewritten` gives inputs for both.
- The one-pass port view and the single one differ exactly for a managed Service without an
  application label (`ViewsAgreeIffLabelled`, `UnlabelledServiceCountsOnce`). A deploy reads
  back as requested exactly when no Service of an earlier one, with a suffix no longer asked
  for, still exposes ports, and takes ports from another application exactly when the name of
  one continues the other's (`ServicePorts.Cluster.Deploy`, `OtherIsWrittenIff`).
- A service scaled to zero comes back from pause and resume with one replica
  (`ResumeUndoesPauseIff`, `PausedAtZeroResumesAtOne`).

## Model

| member | source | states |
|---|---|---|
| WatchFanout.SafeStep | internal/workspacesvc/workspacehub.go:31-69 | every step of drains, run loops, subscribers and the mutex keeps channel safety and "watches run iff someone is registered" |
| WatchFanout.RunStaysOk | internal/k8swatch/watch.go:24-57 | every step keeps each run's bookkeeping: `out` is closed only after all sources exited, and an uncancelled run is the current one |
| WatchFanout.DrainStepKeepsRunOk | internal/k8swatch/watch.go:61-76 | the same for the steps of the source goroutines |
| WatchFanout.UpstreamStep | internal/k8swatch/watch.go:28-56 | a signal held by a drain, in `out` or by a run loop stays on its way until a dispatch begins |
| WatchFanout.WakeupStep | internal/workspacesvc/workspacehub.go:57-69 | no step loses a wake-up |
| WatchFanout.InvHoldsThroughout | internal/workspacesvc/workspacehub.go:31-69 | the invariant holds in every state of every interleaving, also with overlapping old and new runs |
| WatchFanout.ChannelsAreSafe | internal/workspacesvc/workspacehub.go:33-53 | in every run nothing is sent on or closed twice as a closed channel, and with the mutex free `started` holds iff a subscriber is registered |
| WatchFanout.NoStepPanics | internal/k8swatch/watch.go:25-55 | in no reachable state can a step signal on a closed `out`, offer to a closed channel or close either twice |
| WatchFanout.WakeupsAreNeverLost | internal/workspacesvc/service.go:3273-3322 | a registered subscriber that has not re-listed since an event has a token or a re-list coming |
| WatchFanout.HeldMutexMovesOn | internal/workspacesvc/workspacehub.go:31-69 | whoever holds the mutex can take a step: no deadlock |
| WatchFanout.UpstreamMovesOn | internal/workspacesvc/workspacehub.go:57-69 | a signal in flight always has an enabled step |
| WatchFanout.StaleSubscriberMovesOn | internal/workspacesvc/service.go:3307-3321 | while a registered subscriber is stale the pipeline has something to do |
| WatchFanout.QuiescentIsFresh | internal/workspacesvc/workspacehub.go:57-69 | when the pipeline has nothing left to do every registered subscriber has listed after the last event |
| WatchFanout.CancelledRunMovesOn | internal/k8swatch/watch.go:31-56 | a cancelled run that is not stuck opening keeps winding down |
| WatchFanout.IdleRunsNoWatches | internal/workspacesvc/workspacehub.go:42-53 | once nobody is registered and things have settled, every run has stopped for good |
| WatchFanout.InternalStepUsesWork | internal/k8swatch/watch.go:24-76 | every step the pipeline takes by itself decreases a well-founded measure |
| WatchFanout.NoEndlessInternalRun | internal/workspacesvc/workspacehub.go:57-69 | so no schedule puts off a refresh for ever |
| WatchFanout.DrainGetsToWatch | internal/k8swatch/watch.go:34-51 | whatever an uncancelled run's drain is at, a failed open and an ended watch included, its own next steps lead to watching |
| WatchFanout.SourceMayAnswer | internal/k8swatch/watch.go:36-76 | an open may succeed or fail, and a watch bring an event or end |
| WatchFanout.PipelineSettles | internal/workspacesvc/workspacehub.go:57-69 | from any state the pipeline can settle by itself |
| WatchFanout.EventReachesEveryone | internal/k8swatch/watch.go:61-76 | an event a drain receives leaves every registered subscriber with something coming, and the pipeline can bring itself to where all have listed after it |
| WatchFanout.Hub.Subscribe | internal/workspacesvc/workspacehub.go:31-45 | registers a fresh channel due to list, and starts a run exactly when none is up |
| WatchFanout.Hub.Unsubscribe | internal/workspacesvc/workspacehub.go:43-53 | removes and closes the channel at most once; cancels the run exactly when nobody is left |
| WatchFanout.Hub.Dispatch | internal/workspacesvc/workspacehub.go:57-69 | one turn of the loop takes the signal and leaves a token with every registered channel and no other |
| HelmNames.RevCmNameInjective | internal/helmmgr/helmmgr.go:395-397 | a body's name determines release and revision |
| HelmNames.HeadNameMeetsRevisionName | internal/helmmgr/helmmgr.go:392-397 | a head's name is a body's name exactly for a release spelled `rev-<r>-v<n>` |
| HelmNames.NamesAreSharedOnlyByLookalikes | internal/helmmgr/helmmgr.go:392-397 | two releases share a ConfigMap name iff one is spelled like a revision of the other |
| HelmNames.NamesAre | internal/helmmgr/helmmgr.go:392-397 | how the names are spelled |
| HelmNames.ValidReleaseNameIff | internal/helmmgr/helmmgr.go:822-836 | which release names are accepted |
| HelmNames.ValidNamesCanClash | internal/helmmgr/helmmgr.go:822-836 | the name check accepts such a pair |
| HelmSpec.KeepIsBounded | internal/helmmgr/helmmgr.go:537-552 | at most the retention bound of numbers is kept, duplicates included |
| HelmSpec.KeepHoldsTheNewest | internal/helmmgr/helmmgr.go:537-552 | the newest number is always among the kept ones |
| HelmSpec.HistoryIsUnique | internal/helmmgr/helmmgr.go:439-456 | the stored bodies determine the loaded history |
| HelmSpec.WriteKeepsSound | internal/helmmgr/helmmgr.go:603-614 | a write stopped at any API call leaves a head whose body exists and no body beyond head+1 |
| HelmSpec.CompletedWriteIsBounded | internal/helmmgr/helmmgr.go:537-569 | a completed write leaves at most `historyMax` bodies, the newest among them |
| HelmSpec.EveryRunIsSound | internal/helmmgr/helmmgr.go:655-730 | over any run of writes, each completing or dying anywhere, the store is sound and, after a completed one, bounded |
| HelmSpec.DuplicatesIffBodyIsThere | internal/helmmgr/helmmgr.go:678-686 | the history handed to prune has distinct numbers iff there is no head yet or the body about to be written is not stored |
| HelmSpec.CrashBetweenBodyAndHeadDuplicatesANumber | internal/helmmgr/helmmgr.go:603-614 | so a write that dies between body and head makes the next one, under the same number, carry it twice |
| HelmSpec.WriteAppendsToTheLog | internal/helmmgr/helmmgr.go:603-614 | a completed write moves the stored window on by one entry of an append-only log |
| HelmSpec.FaultFreeRunRefinesTheLog | internal/helmmgr/helmmgr.go:655-690 | after k completed writes the head is k and the bodies are exactly the newest `historyMax` things written |
| HelmSpec.RollbackFindsTheOriginal | internal/helmmgr/helmmgr.go:700-712 | Rollback finds revision n iff it is in the window, and finds what write n recorded |
| HelmMigration.GetKeepsOnTheWay | internal/helmmgr/helmmgr.go:413-436 | a Get stopped anywhere stays between the legacy form and the migrated one |
| HelmMigration.ReadsNeverLoseRetainedHistory | internal/helmmgr/helmmgr.go:401-436 | over any run of failing Gets the newest `historyMax` legacy revisions stay in the head or in bodies |
| HelmMigration.CompletedMigrationReturnsRetained | internal/helmmgr/helmmgr.go:427-456 | a Get whose migration completes returns exactly those, in order |
| HelmMigration.WriteAfterStoppedMigration | internal/helmmgr/helmmgr.go:469-473 | a write over an unfinished migration keeps what it should iff the wanted legacy bodies are stored already |
| HelmMigration.WriteAfterFailedMigrationDropsHistory | internal/helmmgr/helmmgr.go:413-423 | when the migration failed at its first call the next write drops the whole legacy history |
| HelmStore.SeparateReleasesDoNotInterfere | internal/helmmgr/helmmgr.go:392-397 | a change confined to one release's names leaves a separate release's state as it is |
| HelmStore.LookalikeOverwritesABody | internal/helmmgr/helmmgr.go:469-502 | writing the head of a look-alike release replaces the other's body |
| HelmStore.SortByNumberAscends | internal/helmmgr/helmmgr.go:453-456 | the sort yields strictly ascending numbers and the same revisions |
| HelmStore.ListedBodies | internal/helmmgr/helmmgr.go:439-456 | what the list call returns, sorted, is exactly the stored history |
| HelmStore.PreparedAfterGet | internal/helmmgr/helmmgr.go:678-688 | the release handed to the write extends what Get loaded by one revision |
| HelmStore.PruneStep | internal/helmmgr/helmmgr.go:553-568 | one delete of the prune loop keeps every retained body |
| HelmStore.PruneIsComplete | internal/helmmgr/helmmgr.go:537-569 | when the loop ends only retained bodies are left |
| HelmStore.Client.constructor | internal/helmmgr/helmmgr.go:85-120 | zero means the default retention of ten |
| HelmStore.Client.LoadRevisions | internal/helmmgr/helmmgr.go:439-456 | returns the stored bodies, oldest first |
| HelmStore.Client.Get | internal/helmmgr/helmmgr.go:401-425 | reports the head with the stored history; its only effect is the migration, which may stop anywhere |
| HelmStore.Client.MigrateLegacy | internal/helmmgr/helmmgr.go:429-436 | bodies in order, then the stripped head, then the prune, stopped anywhere |
| HelmStore.Client.PutHead | internal/helmmgr/helmmgr.go:469-502 | changes the head alone, to the release without its history and the list of its revision numbers |
| HelmStore.Client.PutRevision | internal/helmmgr/helmmgr.go:505-533 | changes one body alone |
| HelmStore.Client.KeepSet | internal/helmmgr/helmmgr.go:541-552 | the loop computes the last `historyMax` of the sorted numbers |
| HelmStore.Client.PruneHistory | internal/helmmgr/helmmgr.go:537-569 | deletes unretained bodies only, and all of them when it completes |
| HelmStore.Client.Put | internal/helmmgr/helmmgr.go:459-464 | the head, then the prune |
| HelmStore.Client.RecordRevision | internal/helmmgr/helmmgr.go:603-614 | the body, then the head, then the prune; every stopping point is covered |
| HelmStore.Client.Apply | internal/helmmgr/helmmgr.go:655-690 | records the given chart, values and manifest under the next number, with the owner the release had, after applying the manifest; keeps the store sound on every exit; each error has its cause |
| HelmStore.Client.Rollback | internal/helmmgr/helmmgr.go:692-730 | applies the target's manifest again and records its chart, values and manifest under a fresh number; fails without a write when the target is missing; each error has its cause |
| HelmStore.Client.DeleteReleaseState | internal/helmmgr/helmmgr.go:572-588 | on success nothing of the release is left; other releases are untouched |
| Text.SplitLinesIsLossless | internal/gitmerge/merge3.go:40-45 | the lines join to the text, and only the last may lack its line end |
| Text.NoPatternAcrossLineEnd | internal/gitmerge/marker.go:41-43 | a pattern without a line end does not straddle one |
| Text.CleanLinesJoinClean | internal/gitmerge/merge3.go:16-45 | terminated lines free of the sentinel join to a text free of it |
| Diff3.RegionIsWellPlaced | internal/gitmerge/merge3.go:9-35 | a changed region lies in the inputs, ends before the next hunk, and a side without hunks in it equals the base there |
| Diff3.MergeFromPartitions | internal/gitmerge/merge3.go:9-35 | stable and changed regions partition base, ours and theirs, changed ones separated by stable ones |
| Diff3.ChunksReassembleInputs | internal/gitmerge/merge3.go:9-35 | nothing of base, ours or theirs is lost between the regions |
| Diff3.RegionEndIsLeast | internal/gitmerge/merge3.go:9-35 | a changed region is no longer than touching hunks make it |
| Diff3.RegionKindIff | internal/gitmerge/merge3.go:9-35 | a region counts for a side iff a hunk of that side lies in it |
| Diff3.MergeDecidesEveryRegion | internal/gitmerge/merge3.go:21-34 | a region is a conflict, with what each input has there, iff both sides changed it and differently; else it is the changed side's; the merge is clean iff there is no such region |
| Diff3.UntouchedTheirsYieldsOurs | internal/gitmerge/merge3.go:16-35 | when theirs has no hunk against the base, the merge is clean and gives ours |
| Diff3.UntouchedOursYieldsTheirs | internal/gitmerge/merge3.go:16-35 | when ours has none, it is clean and gives theirs |
| Diff3.MergedLinesComeFromInputs | internal/gitmerge/merge3.go:16-35 | every line of a clean merge is a line of an input |
| Diff3.OnlyTheLastLineIsOpen | internal/gitmerge/merge3.go:16-45 | in a clean merge only the last line may lack its line end |
| GitMerge.WriteSection | internal/gitmerge/marker.go:74-84 | a section ends its last line, and an empty one is marked as deleted |
| GitMerge.ConflictBlock | internal/gitmerge/marker.go:48-62 | ours, then base, then theirs, each whole under its marker line, a side without content said to be deleted |
| GitMerge.TextMerge | internal/gitmerge/merge3.go:16-35 | the loop renders every region in order and reports a conflict iff both sides changed one, and differently |
| GitMerge.OneSidedMergeIsThatSide | internal/gitmerge/merge3.go:16-35 | when one side has no hunk the text is the other side's |
| GitMerge.IsBinaryIff | internal/gitmerge/policies.go:7-14 | binary means a NUL among the first 8000 bytes |
| GitMerge.ConflictIsMarked | internal/gitmerge/policies.go:43-82 | a conflict is never omitted and always carries the sentinel |
| GitMerge.CleanTextMergeIsMarkerFree | internal/gitmerge/merge3.go:16-45 | a clean merge of inputs without the sentinel has none |
| GitMerge.MarkersMeanConflict | internal/gitmerge/policies.go:43-90 | for such inputs the result of the policy carries the sentinel iff it reports a conflict |
| WorktreeFs.Worktree.Write | internal/gitmerge/merge.go:277-292 | a write succeeds iff no file is in the way above and no directory at the path; it then sets that file alone |
| WorktreeFs.Worktree.Remove | internal/gitmerge/merge.go:271-276 | removes a file, and nothing else |
| CommitGraph.MergeBaseOfAncestor | internal/gitmerge/merge.go:94-127 | the base tip is the only merge base iff it is an ancestor already |
| CommitGraph.ReachesIgnoresNewerCommits | internal/gitmerge/merge.go:94-127 | adding commits changes no ancestry among the older ones |
| Sync.CollectChanged | internal/gitmerge/merge.go:142-160 | the two diffs collect exactly the paths changed on either side |
| Sync.SortedPaths | internal/gitmerge/merge.go:162-166 | the changed paths in order, each once |
| Sync.UnchangedPathKeepsOurs | internal/gitmerge/policies.go:43-58 | the policy keeps the branch's own state at a path neither side changed |
| Sync.ReadPathIs | internal/gitmerge/merge.go:243-268 | what is read at a path of a tree |
| Sync.OneSidedChangeIsTaken | internal/gitmerge/policies.go:43-58 | a path one side left alone is as the other has it, present or absent, and one both deleted is absent; never in conflict |
| Sync.DeletionAgainstChange | internal/gitmerge/policies.go:59-72 | a file deleted on one side and changed on the other stays: a marked conflict with the survivor on its side, or, when binary, the survivor |
| Sync.BothSidesChanged | internal/gitmerge/policies.go:73-82 | a file both have and changed is theirs when binary, and else the line merge, in conflict iff both changed a region differently |
| Sync.LoopComputesMergedTree | internal/gitmerge/merge.go:173-198 | visiting the changed paths only, the worktree ends as the policy applied at every path |
| Sync.ApplyResult | internal/gitmerge/merge.go:271-292 | applies one result; succeeds iff no file or directory is in the way |
| Sync.ApplyPaths | internal/gitmerge/merge.go:173-198 | succeeds iff no result needs a directory where a file is or the reverse; the worktree is then the merged tree and `Conflicts` exactly the sorted conflicting paths |
| Sync.MarkedPathsAreConflicts | internal/gitmerge/merge.go:173-198 | markers are left exactly at the conflicting paths |
| Sync.Repo.SyncBranch | internal/gitmerge/merge.go:49-230 | what a sync does to commits and refs and what it reports, in every case; without a failing call it fails only for its arguments, a missing ref, no merge base or a clash of results |
| Sync.SyncIntegratesUnlessTreeUnchanged | internal/gitmerge/merge.go:204-229 | the base tip is an ancestor afterwards iff it was before or the merged tree differs from the branch's; a commit made has the old tip as first and the base tip as second parent |
| Sync.SameDeletionIsNotIntegrated | internal/gitmerge/merge.go:204-229 | a repository where a completed sync commits nothing and leaves the base tip outside |
| Sync.SecondSyncChangesNothing | internal/gitmerge/merge.go:94-127 | after a sync that reports a commit, a second one with unmoved tips is clean, changes nothing and reports the same tip |
| Sync.SecondSyncCommitsNothingAgain | internal/gitmerge/merge.go:204-229 | after one that committed nothing, a second one from the same merge base commits nothing again and reports the same |
| Staging.WriteStaysTidy | internal/gitcommit/gitcommit.go:418-485 | a write opens or amends the placeholder and leaves every settled commit |
| Staging.CloseStaysTidy | internal/gitcommit/gitcommit.go:491-532 | a commit adds one settled commit whose tree is the fold of all batches since the last one |
| Staging.StripStaysTidy | internal/gitcommit/gitcommit.go:254-280 | stripping leaves exactly the settled history |
| Staging.RunsStayTidy | internal/gitcommit/gitcommit.go:385-532 | over any run there is at most one placeholder, at HEAD, and no settled commit repeats its parent's tree |
| Staging.SettledOnlyGrows | internal/gitcommit/gitcommit.go:418-532 | over any run no settled commit is rewritten |
| Staging.FoldAppends | internal/gitcommit/gitcommit.go:446-450 | two batches one after the other act as one |
| Staging.TrimSpaceTrims | internal/gitcommit/gitcommit.go:494-496 | a text without the spaces around it |
| Staging.CanCloseIff | internal/gitcommit/gitcommit.go:231-248 | a branch can be closed iff the message is not blank, the tip's message is a placeholder's and its tree differs from its parent's, or from the empty one |
| Staging.WrittenOpens | internal/gitcommit/gitcommit.go:464-473 | a write leaves the branch, without its placeholder, and a placeholder with the new tree |
| Staging.WriteCanBeClosed | internal/gitcommit/gitcommit.go:491-532 | a branch that was settled before a write can be closed after it |
| Staging.CloseSettlesUnlessMessageIsPlaceholder | internal/gitcommit/gitcommit.go:491-524 | a commit closes the staging area iff its message is not spelled like a placeholder; else the next write amends it away |
| Staging.PlaceholderMessageDoesNotClose | internal/gitcommit/gitcommit.go:491-524 | a branch and a message for which a commit leaves the staging area open |
| CloneCache.KeySeparates | internal/gitcommit/gitcommit.go:131-131 | the cache key separates repository and branch pairs |
| Batches.ApplyOp | internal/gitcommit/gitcommit.go:577-606 | one file operation does to files and directories what the worktree model says, or is refused and changes nothing |
| Batches.ApplyOps | internal/gitcommit/gitcommit.go:446-450 | a batch goes through or stops at the operation refused; what was done before stays |
| Batches.RunFolds | internal/gitcommit/gitcommit.go:446-450 | a batch that goes through acts on the files as the fold of its operations, all of them legal and not ignored |
| Batches.RunWithFewerDirs | internal/gitcommit/gitcommit.go:577-606 | what goes through on a worktree goes through, to the same files, on one with fewer directories |
| Batches.RefusedIffObstructed | internal/gitcommit/gitcommit.go:584-596 | a batch that a fresh worktree accepts is refused by one with leftover directories iff one of them is in the way of an operation at its turn |
| CloneCache.Manager.Oldest | internal/gitcommit/gitcommit.go:201-207 | the scan finds a least recently used entry |
| CloneCache.Manager.Evict | internal/gitcommit/gitcommit.go:199-214 | terminates below capacity or empty; it drops no more than needed, what it drops was used no later than what it keeps, and its directories go with it |
| CloneCache.Manager.Forget | internal/gitcommit/gitcommit.go:283-291 | drops one clone and its directory |
| CloneCache.Manager.Refresh | internal/gitcommit/gitcommit.go:170-196 | makes a clone's branch and files the remote's, whatever they were; directories may be left, and stay as they are when the files were the remote's already |
| CloneCache.Manager.Clone | internal/gitcommit/gitcommit.go:134-166 | a ready clone has exactly the remote's branch and files, cached or not; it is the most recently used, and only the oldest others make room for it; without faults its directories and commits are determined by the cached clone; at most max(caps, 1) entries remain and live directories are exactly theirs |
| CloneCache.Manager.ForcePush | internal/gitcommit/gitcommit.go:535-546 | sets one remote branch; a push reported as failed may have arrived |
| CloneCache.Manager.Status | internal/gitcommit/gitcommit.go:385-411 | reports whether the tip is a placeholder, whether its tree differs from its parent's, the tip, and what to merge |
| CloneCache.Manager.ApplyFiles | internal/gitcommit/gitcommit.go:418-485 | a batch that goes through does to the remote what it does from a fresh clone, which accepts it too; without faults the outcome is determined by the worktree the clone starts with, and each error has its cause |
| CloneCache.CacheRefusesIff | internal/gitcommit/gitcommit.go:446-450 | a batch that a fresh clone accepts is refused through the cache iff a leftover directory is in the way at its turn, and never without a cached clone |
| CloneRuns.LeftoverDirectoryRefuses | internal/gitcommit/gitcommit.go:584-596 | after deleting the only file below a directory, writing a file in its place is refused through the cache, and accepted by a fresh clone |
| CloneRuns.DirectoryWithOneFile | internal/gitcommit/gitcommit.go:584-596 | a tree and paths that make such a run |
| CloneCache.Manager.Close | internal/gitcommit/gitcommit.go:491-532 | rewords the placeholder and keeps its tree; without faults and with a message it goes through iff the tip is a placeholder whose tree differs from its parent's |
| CloneRuns.WriteThenClose | internal/gitcommit/gitcommit.go:418-532 | after a write to a settled branch a commit goes through without faults, and adds one commit with the written tree |
| CloneCache.Manager.ResetTo | internal/gitcommit/gitcommit.go:254-280 | moves the branch to a known commit: without faults iff the branch reaches it or a usable cached clone has it, and the reset of the worktree succeeds |
| CloneCache.EffectsAreSteps | internal/gitcommit/gitcommit.go:254-532 | what the operations do to a branch are the steps whose runs are proved tidy |
| CloneCache.RewordingDropsTheTip | internal/gitcommit/gitcommit.go:466-470 | an amended tip is reached by the branch no longer, through any parent, iff the amend changed it |
| CloneRuns.ResetToDroppedCommit | internal/gitcommit/gitcommit.go:254-280 | after two writes in a row a reset to the dropped commit goes through, though the branch does not reach it |
| CloneRuns.TwoWritesToOneFile | internal/gitcommit/gitcommit.go:418-485 | a branch and two writes that make such a run |
| CloneCache.Manager.Submit | internal/gitcommit/gitcommit.go:300-369 | one commit on top of the base, pushed to the new branch alone; every branch keeps all it reached; each error has its cause, and a refused push is an error |
| CloneCache.AcceptsUnlessRefused | internal/gitcommit/gitcommit.go:353-366 | the plain push of a commit on the base is refused iff the branch exists, the base does not reach it and it is not that commit |
| CloneCache.PlainPushFastForwards | internal/gitcommit/gitcommit.go:297-299 | an existing branch that the push moves all the same |
| Sandbox.InvStep | internal/sandboxmgr/k8s.go:299-475 | every step of racing creators and an orderly Delete keeps the ownership invariant |
| Sandbox.CreationIsExclusive | internal/sandboxmgr/k8s.go:299-475 | Service implies Pod implies Secret with one owner, at most one creator stands as winner and holds all three, a loser leaves nothing |
| Sandbox.CreatorsTouchOnlyTheirOwn | internal/sandboxmgr/k8s.go:451-475 | no step of a creator, compensation included, removes or replaces another's object |
| Sandbox.FaultFreeRaceHasOneWinner | internal/sandboxmgr/k8s.go:299-475 | when no call fails, a finished race on a free name has exactly one winner |
| Sandbox.OverlappingDeleteOrphans | internal/sandboxmgr/k8s.go:516-562 | a Delete begun on an unfinished sandbox has a continuation that leaves a Service without a Pod |
| Sandbox.DeleteIsSafeIffServiceExists | internal/sandboxmgr/k8s.go:516-562 | a Delete is safe in every continuation iff the Service exists when it begins |
| Sandbox.HalfMadeSandboxIsUnsafe | internal/sandboxmgr/k8s.go:451-475 | a state every Create passes in which a Delete may start and is not safe |
| Sandbox.IgnoredDeleteErrorOrphans | internal/sandboxmgr/k8s.go:554-562 | for every outcome of its three calls: a Delete of a finished sandbox orphans the Service iff the Service delete fails and the Pod delete does not |
| Sandbox.UnheardServiceOrphans | internal/sandboxmgr/k8s.go:465-475 | a creator told that its Service create failed orphans the Service iff it was carried out |
| Sandbox.UnheardPodLosesItsSecret | internal/sandboxmgr/k8s.go:450-456 | one told that its Pod create failed leaves a Pod without its Secret iff it was carried out |
| Sandbox.UnheardSecretBlocksTheName | internal/sandboxmgr/k8s.go:308-313 | a Secret create carried out unheard blocks the name |
| Sandbox.LeakedSecretBlocksTheName | internal/sandboxmgr/k8s.go:451-454 | a Secret left by a failed compensation bars every later Create and Delete of the name |
| Sandbox.CreateIsAllOrNothing | internal/sandboxmgr/k8s.go:299-475 | a lone Create ends with all three objects its own or with everything as before |
| Sandbox.Client.Create | internal/sandboxmgr/k8s.go:299-483 | the code's calls, in order, are a run of the protocol that ends in success or failure as reported |
| Sandbox.Client.Delete | internal/sandboxmgr/k8s.go:516-562 | the same for Delete: Service, then Secret, then Pod |
| SessionNames.ValidComponentIff | internal/roles/roles.go:199-216 | which names are accepted, position by position |
| SessionNames.ParseInvertsName | internal/roles/roles.go:220-236 | a name parses as a target iff the components are legal and the target prints as that name |
| SessionNames.NamesSeparateTargets | internal/roles/roles.go:234-236 | in legally named repositories, whatever the branches, one name means one target |
| ChangeRequests.AdmittedCallIsOk | internal/workspacesvc/service.go:1576-1646 | what the checks of an RPC let through is a call that may be made |
| ChangeRequests.DashedAt | internal/workspacesvc/service.go:1653-1656 | a session's name in a head name, character by character |
| ChangeRequests.RequestsMayBegin | internal/workspacesvc/service.go:1576-1719 | any request may come at any time, and is in flight iff let through |
| ChangeRequests.SubmissionGoesOn | internal/workspacesvc/service.go:1620-1646 | a submission whose calls are heard of clones, pushes its commit and opens its request |
| ChangeRequests.HeadIsCleanedUp | internal/workspacesvc/service.go:1629-1633 | one whose request could not be opened, and a request that was closed, lose the head branch |
| ChangeRequests.OtherCallsEndTheRequest | internal/workspacesvc/service.go:1281-1719 | every other call is a request's last |
| ChangeRequests.MergeOrCloseIsAdmittedIff | internal/workspacesvc/service.go:1725-1736 | merge and close are let through iff the repository is the tenant's, the request exists, and the caller is the console or its base's session |
| ChangeRequests.SubmitIsAdmittedIff | internal/workspacesvc/service.go:1576-1602 | a submission iff the repository is the tenant's, the base is a legal existing branch outside `mr/`, and there are files |
| ChangeRequests.CreateIsAdmittedIff | internal/workspacesvc/service.go:1281-1311 | a new branch iff the repository is the tenant's and the caller is no session of another |
| ChangeRequests.DeleteIsAdmittedIff | internal/workspacesvc/service.go:718-774 | a delete iff it names a legal branch other than `main` of a repository of the tenant's |
| ChangeRequests.StepGrows | internal/workspacesvc/service.go:1576-1736 | every call of every concurrent request keeps the invariant; requests keep base and head |
| ChangeRequests.BranchesMoveOnlyByMerge | internal/workspacesvc/service.go:1673-1695 | over every run a branch outside `mr/` moves only by merging an open request into it, by its own session or the console, to a merge of its tip and the head; an `mr/` branch only forward |
| ChangeRequests.MainIsNeverDeleted | internal/workspacesvc/service.go:718-774 | over every run `main` stays |
| ChangeRequests.HistoryOnlyGrows | internal/workspacesvc/service.go:1569-1575 | while a branch exists it keeps every commit it ever had |
| ChangeRequests.MainOnlyGrows | internal/workspacesvc/service.go:714-774 | both for the default branch over a whole run |
| ChangeRequests.OneSessionOneBranch | internal/workspacesvc/service.go:1725-1736 | over a whole run one session merges into one branch only |
| ChangeRequests.HeadNamesCollide | internal/workspacesvc/service.go:1653-1656 | two submissions choose one head name iff they come at the same instant from sessions alike up to `:` and `/` |
| ChangeRequests.Gateway.CallHost | internal/forgejo/forgejo.go:481-650 | each call to the host does what the protocol's step says, or nothing; it is refused without a fault only for an unknown ref, a commit that does not fit or a request that cannot be merged |
| ChangeRequests.Gateway.HandleSubmit | internal/workspacesvc/service.go:1576-1646 | one commit on the base tip under a fresh head name and an open request for it; no other branch changes, also when a later call fails; without a fault it fails only for another tenant, a bad base, no files, operations that do not fit or change nothing, or a taken head name |
| ChangeRequests.Gateway.HandleMerge | internal/workspacesvc/service.go:1673-1695 | moves the request's base to a merge of base and head, removes the head and closes the request, for the base's session or the console; without a fault it fails only for another caller or tenant, or a request that is not open or lacks a branch |
| ChangeRequests.Gateway.HandleClose | internal/workspacesvc/service.go:1699-1719 | closes the request and, without faults, removes its head; no other branch changes; without a fault it fails only for another caller or tenant or an unknown request |
| ChangeRequests.Gateway.HandleDelete | internal/workspacesvc/service.go:714-774 | removes one legally named branch of an owned repository, never `main`; without a fault it fails only when there is no such branch name to delete |
| ChangeRequests.Gateway.HandleCreate | internal/workspacesvc/service.go:1281-1296 | adds a branch at the resolved commit; an existing one is reported as created and stays; without a fault it fails only for another tenant, a session of another repository or an unknown ref |
| ForgejoLog.Log | internal/forgejo/forgejo.go:1000-1076 | returns exactly the requested slice, each row with its sha, author, date and trimmed message; `hasMore` iff more follows, but without a total not when the window ends a page; fails iff a page it asks for fails |
| ForgejoLog.FullPageHidesTheRest | internal/forgejo/forgejo.go:1056-1063 | a history and a window for which `hasMore` is wrong |
| ForgejoLog.PagesGrow | internal/forgejo/forgejo.go:1025-1050 | appending a page extends the rows walked, and a short page ends the history |
| ForgejoLog.WindowOfPages | internal/forgejo/forgejo.go:1051-1059 | skipping and trimming the walked pages gives the window |
| Archive.ArchiveTop | internal/imagebuild/imagebuild.go:400-439 | finds the wrapper iff something is nested and all entries share their first segment |
| Archive.WrapperIsUnique | internal/imagebuild/imagebuild.go:394-399 | an archive has at most one wrapper |
| Archive.StripTop | internal/imagebuild/imagebuild.go:448-500 | rewrites every entry, in order, under its stripped name; without a wrapper the archive is unchanged |
| Archive.EntryIsRenamed | internal/imagebuild/imagebuild.go:476-482 | a relative name is dropped iff it is the wrapper, and else is `top/` before its new name |
| Archive.StripConservesTheTree | internal/imagebuild/imagebuild.go:441-500 | no file is lost, order and content are kept, and distinct names stay distinct |
| Archive.LinkFollowsItsTarget | internal/imagebuild/imagebuild.go:483-484 | a link target inside the archive is rewritten like the names |
| Archive.LinkIsKeptIff | internal/imagebuild/imagebuild.go:483-484 | when a link target survives unchanged |
| Archive.Extract | internal/imagebuild/imagebuild.go:505-583 | unpacks every entry, in order, under its relative name; fails iff the stream is cut or the files exceed the limit |
| Archive.NamesAgreeIff | internal/imagebuild/imagebuild.go:532-541 | when Extract and StripTop compute the same relative name |
| Archive.LookalikesAreRewritten | internal/imagebuild/imagebuild.go:480-484 | a link and a name to which neither applies |
| Archive.ExtractMatchesStripTop | internal/imagebuild/imagebuild.go:505-583 | without leading slashes, Extract writes exactly what StripTop's output holds |
| ServicePorts.PortsFromService | internal/servicesmgr/services.go:778-795 | decodes every port under the suffix the Service's name spells |
| ServicePorts.PortsFor | internal/servicesmgr/services.go:764-774 | the ports of all managed Services that carry the name |
| ServicePorts.PortsByService | internal/servicesmgr/services.go:1576-1591 | the one-pass index holds, for every name, the ports of the Services that count as it |
| ServicePorts.ViewsAgreeIffLabelled | internal/servicesmgr/services.go:1576-1591 | both views agree on a name iff no managed Service of that name exposes ports without a label |
| ServicePorts.UnlabelledServiceCountsOnce | internal/servicesmgr/services.go:1576-1591 | a Service on which the two views differ |
| ServicePorts.SuffixRoundTrip | internal/servicesmgr/services.go:690-695 | the suffix is read back from the sibling's name |
| ServicePorts.SiblingsAreDistinct | internal/servicesmgr/services.go:690-695 | different suffixes give different Services |
| ServicePorts.RequestedPortsAre | internal/servicesmgr/services.go:378-410 | the ports a deploy asks for, with their defaults |
| ServicePorts.RequestedIsLegalIff | internal/servicesmgr/services.go:387-400 | which are accepted |
| ServicePorts.SiblingsMeetIff | internal/servicesmgr/services.go:690-695 | Services of two applications have one name iff the name of one application continues the other's |
| ServicePorts.OtherIsWrittenIff | internal/servicesmgr/services.go:412-423 | so a deploy writes over another application's Service iff that is so for a requested suffix; over its primary, iff it is named like a sibling |
| ServicePorts.PortsRoundTrip | internal/servicesmgr/services.go:699-714 | ports written to a Service read back the same, in order |
| ServicePorts.Group | internal/servicesmgr/services.go:387-410 | accepts iff every port is legal; the groups hold exactly the completed ports, each suffix once |
| ServicePorts.Cluster.Precheck | internal/servicesmgr/services.go:411-424 | passes only if every Service to be written is absent or the tenant's own |
| ServicePorts.Cluster.Deploy | internal/servicesmgr/services.go:372-686 | every application then exposes what it did on the Services left alone and, if it is the one deployed, exactly the requested ports besides; another application's ports stay iff none of its Services that expose any is written over, and the deployed one's read back as requested iff all of its own are |
| ServicePorts.Redeploy | internal/servicesmgr/services.go:411-424 | what a tenant deployed it can deploy again |
| ServicePorts.UpsertPorts | internal/servicesmgr/services.go:735-750 | writing one Service exchanges its contribution and nothing else |
| PodDiagnostics.DiagFromPod | internal/servicesmgr/services.go:1619-1635 | phase, summed restarts and the first container's reason |
| PodDiagnostics.Diagnose | internal/servicesmgr/services.go:1512-1538 | summarises the first of the newest pods of one application, by a loop of its own |
| PodDiagnostics.DiagnoseAll | internal/servicesmgr/services.go:1595-1616 | the one-pass index does so for every application |
| PodDiagnostics.DiagIsUnique | internal/servicesmgr/services.go:1512-1538 | one value only can be an application's summary |
| PodDiagnostics.SummariesAgree | internal/servicesmgr/services.go:1595-1616 | so the one-pass summary is the single one, for every application |
| Rollout.Client.Pause | internal/servicesmgr/services.go:953-977 | scales to zero and notes the count, once |
| Rollout.Client.Resume | internal/servicesmgr/services.go:982-999 | restores the noted count and clears the note |
| Rollout.Client.Scale | internal/servicesmgr/services.go:1003-1019 | sets the count and clears the note; refuses a negative one |
| Rollout.ResumeRestores | internal/servicesmgr/services.go:950-999 | however often a service was paused, one resume brings its count back |
| Rollout.ResumeUndoesPauseIff | internal/servicesmgr/services.go:950-999 | pause and resume undo one another iff the service ran and was not paused |
| Rollout.PausedAtZeroResumesAtOne | internal/servicesmgr/services.go:958-964 | a service for which they do not |
| Rollout.ParseInt32Iff | internal/servicesmgr/services.go:988-990 | exactly the 32-bit numbers are read back |
| Rollout.DigitsParse | internal/servicesmgr/services.go:968-990 | the count survives being written and read as text |
| Rollout.TargetRevision | internal/servicesmgr/rollback.go:92-130 | finds the revision asked for, else the newest before the current one, iff there is one |
| Representative.SessionSandboxes | internal/workspacesvc/service.go:1989-2020 | all of the session's sandboxes, one that no other beats first, the rest newest first |
| Representative.RefsNameTheirSandboxes | internal/workspacesvc/service.go:2015-2019 | each reference carries its sandbox's name, phase and readiness |
| Representative.BetterIsAnOrder | internal/workspacesvc/service.go:1973-1983 | replacing the pick one by one leaves one that none seen beats |
| Representative.PresentationIsUnique | internal/workspacesvc/service.go:1985-2020 | with different creation times the answer does not depend on the order of the list |

## Left out

- Forwarding of HTTP, Connect and NATS calls, log streaming, registry and worker clients, rendering, provisioning, presets and generated code: they keep no state of their own.
- Strings are sequences of characters, one per byte; there is no Unicode, and file names are not cleaned (`./a` and `a` differ).
- WatchFanout: the threads interleave inside the hub's methods, so its claims are about a state machine whose steps are single channel or mutex operations; `Hub` runs the methods as those steps with nobody else in between, and the goroutines of `Changes` appear only as steps. Backoff timing and fairness are not modelled: that every internal run ends and quiescence means fresh is proved, not how soon.
- HelmStore does not model a second writer of the same release (resource version conflicts), the label and YAML codecs, rendering and applying the manifest's objects (one step that may fail), `List`, `Watch` and the object deletes of `Uninstall`.
- Diff3 takes the line alignments as any valid ones; which alignment the library finds is not modelled, nor is its performance.
- Sync takes from git that a hard reset makes the worktree exactly the tree and that a commit of an unchanged tree is refused; file modes, renames, symlinks and submodules are left out. When there are several merge bases, any of them may come first.
- Staging identifies a commit by its tree, message and parents; author and time are left out.
- CloneCache takes from git that a hard reset makes the files exactly the tree's, untracked ones included, or fails; that it fails only over a file that would replace a directory or the reverse, and then leaves the worktree as it was; and that it leaves no directory that was neither there nor needed. Within these bounds its behaviour is arbitrary.
- CloneCache runs one operation at a time, so it does not cover two operations on one clone or a clone evicted while in use; `.gitignore` is an arbitrary predicate of the tree and path, a batch that edits it is judged by the old one, and ignored files are not staged differently. Errors of the local disk count as network faults.
- Sandbox has at most one Delete of a name at a time; deletes take effect at once, and the wait for the Pod to go is left out.
- Sandbox.CreationIsExclusive: assumes that delete calls go through, that a create reported as failed made nothing, and that a Delete starts on a sandbox whose Service exists; `DeleteIsSafeIffServiceExists`, `IgnoredDeleteErrorOrphans`, `LeakedSecretBlocksTheName` and the `Unheard` lemmas show what happens without.
- ChangeRequests: the claims over whole runs are about the calls the handlers make, since they interleave with those of other requests; `Gateway` runs each handler with the host to itself. `DeleteRepo`, import, tags and mirrors are left out, and so are the session and sandbox cascade of a delete and the notifications; ownership of repositories does not change. The host's merge tree is arbitrary, and the host refuses to merge a request that is closed or whose branches are gone.
- ForgejoLog.Log: integer widths are unbounded and the history does not change during the walk.
- Archive.Extract: whether a path stays in the directory is an arbitrary predicate, and file-system errors and modes are left out.
- ServicePorts.Cluster.Deploy: the Deployment itself is its spec, stored in one step that may fail, image rewriting is left out, and the cluster's refusal of duplicate ports in one group counts as a failing call.
- PodDiagnostics sums restarts without a width.
- Rollout does not model pausing through an edited manifest, nor what the cluster does with the template after a rollback.
- Representative.SessionSandboxes: the order is stated for sandboxes that have names, which every listed one has.
- Wall-clock timeouts, the reaper, tool whitelists, resource defaults, probe and environment mapping, tokens and organisation ownership are left out.
