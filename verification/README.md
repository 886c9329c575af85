# Verified models of BuckyOS

Dafny models of the parts of BuckyOS that keep state or undo each other, with
proofs of what they promise. `dafny verify dfyconfig.toml` checks everything.

- **Event bridge** (`Bridge*.dfy`, `EventPath.dfy`). The manager that shares one
  remote event subscription between many local subscribers is a step protocol:
  the tables, the holder of the table lock, the closes in flight, and the history
  of ids, attempts, outcomes and calls. Adapter and transport may answer either
  way at any time. The promises hold in every state of every run.
  `BridgeManager` is the object itself, its methods tied to the protocol's steps.
- **Install, update, uninstall** (`FileTree.dfy`, `TreeUpdate.dfy`,
  `UpdateTheorems.dfy`, `SteadyPlans.dfy`, `UpdateOutcome.dfy`, `Installer.dfy`,
  `InstalledFiles.dfy`). The file system is a map from segment lists to nodes; a plan gives each item its place
  and its nodes.
- **Payload staging and its verifier** (`PayloadPaths.dfy`, `PathText.dfy`,
  `Staging.dfy`, `StagedFiles.dfy`, `PayloadVerifier.dfy`, `PayloadReport.dfy`,
  `ReportEntries.dfy`, `PayloadTheorems.dfy`). The builder works on trees, the
  verifier on normalised strings; the results are exactly when they agree, and what
  payload and report hold, in segments.
- **Offline activation** (`Activation.dfy`, `Activator.dfy`). Each file goes into
  place by a temporary file and a rename. Any step may fail or be the last, and
  runs follow one another on one disk.
- **Log correlation** (`Pairing.dfy`, `LogEntries.dfy`, `LogReport.dfy`). Dictionaries of queues,
  against "the earliest unused line with the same key".
- **Texts that are built and read back** (`Base64Url.dfy`, `MarkedBlock.dfy`,
  `PackageName.dfy`, `ManifestMerge.dfy`, with `Text.dfy`).

Some promises are false as they stand; for each there is an input that shows it
and the exact condition under which the code keeps it:

- Updating twice is updating once: not when one module leaves a file above another
  module's place (`UpdateTwiceFails`). It is, from every tree that updates at all, if
  and only if the plan is steady: at no path above a module, nor at the root, does
  the last module or data item to touch it leave a file, unless a module before the
  first one replaces it (`UpdateIdempotentIff`).
- Installing is updating the tree without its clean paths: not when a file stands in
  a later module's way (`InstallIsNotUpdate`), nor when a clean path leaves the root
  (`InstallRefused`). An install that succeeds is that update if and only if the
  cleaned tree is passable; an update of the cleaned tree that succeeds is the
  install if and only if nothing named for removal lies outside the root
  (`InstallIsCleanUpdate`).
- Normalising a payload path is idempotent: not when a blank inside it comes to an
  end (`NormalizeNotIdempotent`). It is if and only if the path, without blanks around
  it and dots and slashes in front, does not start with a blank and has none at the
  end of its last real part (`NormalizeIdempotentIff`).
- What staging builds passes the verifier, desktop artifacts aside: not when a
  directory above an item, read without the blanks at its end, is the real place of a
  data path, as with the module `a /b` and the data path `a` (`DisguisedIsRefused`).
  It passes if and only if no path above an item is read that way (`StagedPayloadIff`);
  no path is ever undeclared.
- A destination of an activation holds its old bytes or all of its staged bytes, and
  a changed destination means a complete owner key backup: neither when the backup
  is put where a staged file goes (`CarelessRun`). Each holds in all states of all
  runs if and only if no staged file with other contents goes there
  (`OldOrWholeIff`, `BackupFirstIff`).
- The last write to a marked block wins: not when the first begin marker has no end
  (`OpenBlockExample`). It does if and only if that marker is closed or absent and
  the block name is a single line that does not end in a blank (`LastWriteWinsIff`).

## Model

| member | source | states |
|---|---|---|
| `BridgeTheorems.StepGood` | src/frame/agent-did-object-lib/src/event_bridge.rs:370-499 | every step, by any caller or close in flight, keeps tables, claims, handles, stop calls, rollbacks and releases consistent |
| `BridgeTheorems.TablesAreInverses` | src/frame/agent-did-object-lib/src/event_bridge.rs:392-397 | in every reachable state index and entries are exact inverses, each sink carries its entry's key, id and path, and the stale-index branch is unreachable |
| `BridgeTheorems.CountsAreClaims` | src/frame/agent-did-object-lib/src/event_bridge.rs:501-514 | a reference count is the number of outstanding claims in the callers' history and at least 1; an id is indexed exactly while claimed; the active count is the number of keys with a live claim |
| `BridgeTheorems.OverlappingSubscribersAgree` | src/frame/agent-did-object-lib/src/event_bridge.rs:376-380 | subscribers of one key whose claims overlap receive the identical subscription value |
| `BridgeTheorems.HandlesAreConserved` | src/frame/agent-did-object-lib/src/event_bridge.rs:405-448 | each started handle is in exactly one entry or one close, is stopped once in a close and never elsewhere, and nothing else is stopped |
| `BridgeTheorems.NoHandleLeaks` | src/frame/agent-did-object-lib/src/event_bridge.rs:456-498 | once all claims are dropped and all closes have finished, the tables are empty and every handle was stopped unless its own stop failed |
| `BridgeTheorems.ReleasesAreDisciplined` | src/frame/agent-did-object-lib/src/event_bridge.rs:478-496 | at most one adapter release per close, only after a successful stop, with the recorded remote id; a failed start issues exactly one release of the adapter's own id where asked for |
| `BridgeTheorems.NoRemoteLeaks` | src/frame/agent-did-object-lib/src/event_bridge.rs:405-419 | once all claims are dropped and all closes have finished, every grant to be undone through the adapter has exactly one rollback if its start failed, else exactly one release unless its stop failed or its adapter was gone |
| `BridgeTheorems.DeadIdsStayDead` | src/frame/agent-did-object-lib/src/event_bridge.rs:456-464 | an id that has left the index never returns in any run, and unsubscribing it is a no-op for ever |
| `BridgeTheorems.ClosesAreIsolated` | src/frame/agent-did-object-lib/src/event_bridge.rs:473-497 | through any run a detached entry stays as it was, no live entry shares its id or handle, and its own steps touch neither table nor another close |
| `BridgeTheorems.FailedOpenChangesNothing` | src/frame/agent-did-object-lib/src/event_bridge.rs:382-419 | an open that fails at adapter or transport, with closes interleaved anyhow, leaves both tables and all claims as before |
| `BridgeTheorems.LivePathsAreWellShaped` | src/frame/agent-did-object-lib/src/event_bridge.rs:388-389 | the event path of every live entry has the published shape |
| `BridgeTheorems.EntriesAreAsAnswered` | src/frame/agent-did-object-lib/src/event_bridge.rs:384-448 | in every reachable state each live entry and its snapshot, field by field: key and route of the request that opened it, the grant's object and event, and for object DID, expiry, cursor and remote id what the transport answered, else the grant |
| `BridgeTheorems.CallersAreToldAnswers` | src/frame/agent-did-object-lib/src/event_bridge.rs:376-448 | every subscription a caller was ever told has the fields that some attempt's request, grant and answer give it, under the key asked for |
| `BridgeTheorems.TransportsAreAsked` | src/frame/agent-did-object-lib/src/event_bridge.rs:384-404 | a transport is started with the grant's values, the request's key and route, the adapter's own remote id, and a sink for the local id and its path |
| `BridgeTheorems.ReleasesNameTheRemote` | src/frame/agent-did-object-lib/src/event_bridge.rs:405-422 | a close releases the transport's remote id, or the adapter's if the transport supplied none, at the adapter of the request's route; a rollback always the adapter's own id |
| `BridgeTheorems.RequestsShareIff` | src/frame/agent-did-object-lib/src/event_bridge.rs:517-524 | a request joins a live entry if and only if adapter, object, event and filter hash are those of the request that opened it, and is then told its subscription |
| `BridgeManager.EventBridgeManager.SubscribeEvent` | src/frame/agent-did-object-lib/src/event_bridge.rs:370-449 | with its answers given, the method performs exactly the protocol steps of its branch: same tables, calls and outcome |
| `BridgeManager.EventBridgeManager.Detach` | src/frame/agent-did-object-lib/src/event_bridge.rs:456-476 | the locked half: unknown id, stale id, decrement, or removal from both tables |
| `BridgeManager.EventBridgeManager.UnsubscribeEvent` | src/frame/agent-did-object-lib/src/event_bridge.rs:451-499 | the whole call is a feasible run of the protocol that leaves no close waiting, and it succeeds exactly if stop and release did |
| `EventPath.SafeSegment` | src/frame/agent-did-object-lib/src/event_bridge.rs:592-617 | the cursor loop computes the recursive sanitiser, and its result is a safe segment |
| `EventPath.SafeSegmentLaws` | src/frame/agent-did-object-lib/src/event_bridge.rs:592-617 | safe result, identity on exactly the safe segments, idempotent, never longer than a non-empty input |
| `EventPath.ScrubPieces` | src/frame/agent-did-object-lib/src/event_bridge.rs:592-617 | piece by piece: '%' with as many as two hex digits after it becomes one underscore and the text goes on behind them, a safe character stays, any other becomes an underscore |
| `EventPath.SafeIs` | src/frame/agent-did-object-lib/src/event_bridge.rs:607-609 | the characters that are kept, written out |
| `EventPath.HexIs` | src/frame/agent-did-object-lib/src/event_bridge.rs:597-606 | the hex digits, written out |
| `EventPath.EncodeShape` | src/frame/agent-did-object-lib/src/event_bridge.rs:564-590 | an encoded id splits into "", "obj", at least two safe object segments, and the sanitised event; the object segments are the lower-cased host and the visible segments of a URL, with a hash where there are none, or just the hash |
| `EventPath.EncodeDeterminesEvent` | src/frame/agent-did-object-lib/src/event_bridge.rs:564-590 | equal encoded ids have equal object segments and equal sanitised events |
| `EventPath.SegmentKept` | src/frame/agent-did-object-lib/src/event_bridge.rs:568-576 | a URL segment is in its place among the object segments, sanitised, exactly if it is not blank |
| `EventPath.ShortHashIs` | src/frame/agent-did-object-lib/src/event_bridge.rs:619-625 | a short hash is the first eight bytes of the digest in lower-case hexadecimal |
| `EventPath.LowerIs` | src/frame/agent-did-object-lib/src/event_bridge.rs:583 | each capital letter of a host becomes its small one, everything else stays |
| `TreeUpdate.Target.CopyPath` | src/publish/make_local_deb.py:855-868 | making parents, removing the old and copying the new is one placement; a file in the way changes nothing |
| `TreeUpdate.Target.ActionUpdate` | src/publish/make_local_deb.py:875-906 | the loops over modules and data compute the specified outcome, with the tree left by a failure |
| `TreeUpdate.Target.ActionUninstall` | src/publish/make_local_deb.py:914-926 | the removal loops compute the specified outcome |
| `TreeUpdate.Target.ActionInstall` | src/publish/make_local_deb.py:909-911 | uninstall, then update |
| `UpdateTheorems.UpdateRepeats` | src/publish/make_local_deb.py:875-906 | after a successful update another comes to the same tree if and only if that tree is passable, and fails otherwise |
| `SteadyPlans.UpdateLeaves` | src/publish/make_local_deb.py:877-906 | at every path under a module a successful update leaves exactly what the plan says: what the last module to touch it leaves, else what the first data item to fill it in leaves, else nothing |
| `SteadyPlans.UpdateIdempotentIff` | src/publish/make_local_deb.py:875-906 | for any modules and data, nested or not, and any tree that updates, an update is idempotent if and only if the plan is steady, and the second update fails otherwise |
| `SteadyPlans.UpdateIdempotent` | src/publish/make_local_deb.py:875-906 | with modules apart from each other and from the root, an update is idempotent |
| `UpdateOutcome.UpdateComesTo` | src/publish/make_local_deb.py:875-906 | on every tree an update succeeds if and only if every item has a source and a place under the root and no file is in its way when its turn comes, told from tree and plan; then they also say what it leaves at every path, inside and outside the modules |
| `UpdateOutcome.NothingStray` | src/publish/make_local_deb.py:875-906 | whatever an update leaves, successful or not, was there before with the same contents, leads to the root, or comes from an item's source or from the directories above its place |
| `InstalledFiles.ModuleInstalled` | src/publish/make_local_deb.py:855-881 | for every project whose update succeeds: wherever no later module reaches, the target holds under a module's place what the module's source holds there, ignored names left out, and where no data item reaches nothing else |
| `InstalledFiles.DataInstalled` | src/publish/make_local_deb.py:883-906 | a data path that is vacant after the modules and the data items before it is filled in with all of its source in the same way; a file offered for a path with a slash at its end lands in a directory there |
| `InstalledFiles.ModuleFreshlyInstalled` | src/publish/make_local_deb.py:909-911 | the same of a module after an install that succeeds |
| `Installer.UpdateTwiceFails` | src/publish/make_local_deb.py:875-882 | a project with the module files `a/b` and `a` whose first update succeeds and whose second fails |
| `UpdateTheorems.InstallIsCleanUpdate` | src/publish/make_local_deb.py:909-926 | a successful install is the update of the tree without its clean paths if and only if that tree is passable; a successful update of that tree is the install if and only if uninstalling is not refused; and each success with its condition is the other |
| `UpdateTheorems.UninstallSucceeds` | src/publish/make_local_deb.py:914-926 | an uninstall succeeds if and only if there is no root yet or every named path lies inside it |
| `UpdateTheorems.InstallRefused` | src/publish/make_local_deb.py:923-926 | a plan whose clean path leaves the root: the cleaned tree updates, the install fails |
| `UpdateTheorems.InstallIsNotUpdate` | src/publish/make_local_deb.py:909-926 | a tree where install succeeds and the update differs |
| `UpdateTheorems.UpdateFrame` | src/publish/make_local_deb.py:875-906 | an update, successful or not, changes no existing path that is not at or under a module |
| `UpdateTheorems.InstallFrame` | src/publish/make_local_deb.py:909-926 | an install, successful or not, changes no existing path outside module and clean paths |
| `UpdateTheorems.UninstallExactly` | src/publish/make_local_deb.py:914-926 | a successful uninstall removes exactly the module and clean paths with what is below them |
| `UpdateTheorems.ModulesInside` | src/publish/make_local_deb.py:877-881 | under the modules the outcome does not depend on what was there before |
| `UpdateTheorems.LastModuleWins` | src/publish/make_local_deb.py:877-881 | where modules overlap, what the last one holds is what is left, through the data loop too |
| `UpdateTheorems.DataPresent` | src/publish/make_local_deb.py:883-906 | after a successful update every data path is there |
| `Installer.SafeJoin` | src/publish/make_local_deb.py:832-840 | a path that is not refused lies at or under the target root |
| `Installer.SafeJoinNames` | src/publish/make_local_deb.py:832-840 | names go under the root, with or without one slash in front |
| `Installer.SafeJoinRefuses` | src/publish/make_local_deb.py:832-840 | a path that climbs out of the root and does not come back is refused |
| `Installer.SafeJoinAbsolute` | src/publish/make_local_deb.py:832-840 | with more than one slash in front a path is absolute and refused unless it leads into the root; with exactly three it is always refused |
| `Installer.SafeJoinTrims` | src/publish/make_local_deb.py:833 | blanks around an item path do not count |
| `Installer.ResolveLaws` | src/publish/make_local_deb.py:836 | nothing and "." are skipped anywhere, ".." takes back the name before it and stops at the top |
| `Installer.LayoutLaws` | src/publish/make_local_deb.py:832-926 | the laws of update and install for the item paths of any project file: when an update succeeds, what it leaves at every path, when it is idempotent, when installing is updating, and what is left alone |
| `PayloadPaths.NormalizeShape` | src/publish/package_common.py:178-181 | whatever the input, the result has no backslash, no leading dot, and only real segments |
| `PayloadPaths.NormalizeIdempotentIff` | src/publish/package_common.py:178-181 | at every path normalising is idempotent if and only if the path settles at once, a test on the path itself |
| `PayloadPaths.NormalizeIdempotent` | src/publish/package_common.py:178-181 | on text without white space it is idempotent |
| `PayloadPaths.NormalizeNotIdempotent` | src/publish/package_common.py:178-181 | a path on which it is not |
| `PayloadPaths.SettledIff` | src/publish/package_common.py:178-181 | exactly which strings normalisation leaves alone |
| `PayloadPaths.MatchesIff` | src/publish/package_common.py:184-189 | for paths that do not normalise to nothing, the string test is the prefix relation on segments |
| `PayloadPaths.MatchesCovers` | src/publish/package_common.py:184-189 | for all strings, the test is the prefix relation on segments, where nothing is a prefix of nothing only |
| `PayloadPaths.MatchesTransitive` | src/publish/package_common.py:184-189 | the test is transitive, for all strings |
| `PayloadPaths.NormalizeUnder` | src/publish/package_common.py:178-189 | normalising keeps any path, whatever its file names, under a settled prefix it is under |
| `PayloadPaths.UnexpectedPaths` | src/publish/package_common.py:192-208 | the loop collects exactly the paths not allowed; it is empty if and only if each is empty, allowed exactly, or under an allowed prefix |
| `PayloadPaths.AllowedIff` | src/publish/package_common.py:192-208 | for all strings, being allowed is a matter of segments, with the second normalisation that the prefix test performs |
| `Staging.Payload.StageAppRoot` | src/publish/make_local_deb.py:197-245 | the two copying loops compute the staged tree, or fail |
| `StagedFiles.StagingComesTo` | src/publish/make_local_deb.py:197-245 | for any items, overlapping or not, staging succeeds if and only if each in turn has a place and a source and meets no node of the other kind; and then the sources say what the payload holds at every path: which item's node is left, where a file lands inside a directory, and which directories are made |
| `StagedFiles.ItemStaged` | src/publish/make_local_deb.py:197-245 | an item that no other meets is staged with all of its source, ignored names left out, and nothing else at its place |
| `StagedFiles.StagedElsewhere` | src/publish/make_local_deb.py:197-245 | away from all places a payload holds what it held and the directories above those places |
| `StagedFiles.NamesStaged` | src/publish/make_local_deb.py:208-213 | names lead under the root or the defaults area, with or without a slash in front and behind |
| `Staging.StagedAnchored` | src/publish/make_local_deb.py:197-245 | everything in a staged payload lies above, at or under an item's place, every file at or under one, and every item is there with the directories above it |
| `PayloadVerifier.Allowlist.AddPrefix` | src/publish/make_local_deb.py:581-586 | one prefix is added, and the directories above it, nearest first |
| `PayloadVerifier.PayloadAllowlist` | src/publish/make_local_deb.py:575-605 | the prefixes and exact paths that a layout declares |
| `PayloadVerifier.VerifyPayload` | src/publish/make_local_deb.py:616-656 | the failures reported, in order, for any paths, layout and lower-casing |
| `PathText.ReadText` | src/publish/package_common.py:178-181 | however its segments are named, the text of a path that starts with neither a dot nor a blank is read, normalised twice, as its segments with the blanks at the end of the last one gone, twice over, and the segment with them if nothing real is left |
| `PayloadTheorems.StagedPayloadIff` | src/publish/make_local_deb.py:624-656 | for every layout of plain paths whose data paths meet no module path and avoid the defaults directory, and any source files: the report on the staged payload holds no undeclared path, and it names desktop artifacts only if and only if no path above an item is read as the real place of a data path |
| `PayloadTheorems.StagedPayloadPasses` | src/publish/make_local_deb.py:624-656 | that condition holds, and the report names desktop artifacts only, when no segment of an item path ends in a blank |
| `PayloadTheorems.DisguisedIsRefused` | src/publish/make_local_deb.py:624-656 | a layout of normalised paths that staging builds and the verifier refuses |
| `PayloadReport.ReportIff` | src/publish/make_local_deb.py:616-656 | for any paths and any layout of plain paths the report is empty if and only if every path is above or under a declared place, every data path is in the defaults area and none in its real place, and no desktop artifact is named |
| `ReportEntries.ReportSays` | src/publish/make_local_deb.py:616-656 | for any paths and any layout of plain paths each entry of the report: all undeclared paths in one, each desktop artifact that is part of a path, each data path in its real place, each not in the defaults area, and nothing else |
| `ReportEntries.NamesRead` | src/publish/package_common.py:128-134 | an item path of names is read as those names, slashes around them aside |
| `ReportEntries.ItemRelTrims` | src/publish/package_common.py:128-134 | blanks around an item path do not count |
| `ReportEntries.EmptyPathsIgnored` | src/publish/make_local_deb.py:588-595 | an item path of nothing but slashes declares nothing and fails nothing |
| `PayloadTheorems.StagingSucceeds` | src/publish/make_local_deb.py:197-245 | with all sources present and all items apart, staging succeeds |
| `Activation.StepSound` | src/active.ts:231-280 | every step keeps the disk, temporary files aside, at what the run found plus what it has put in place |
| `Activation.OldOrComplete` | src/active.ts:231-265 | at every point of every sequence of runs, what each destination holds: all staged bytes if in place, else the key if the backup was put there, else the old bytes |
| `Activator.OldOrWholeIff` | src/active.ts:231-265 | in all states of all sequences of runs every destination holds its old bytes or all staged bytes, if and only if no staged file with other contents goes to the backup's place |
| `Activation.OthersUntouched` | src/active.ts:231-280 | no other file is touched |
| `Activation.BackupCompleteIff` | src/active.ts:267-280 | exactly when the backup, once in place, holds the key |
| `Activation.ExistingBackupSpared` | src/active.ts:267-280 | a run that finds a file where its backup goes never changes anything, temporary files aside |
| `Activation.StartIff` | src/active.ts:297-322 | on an idle disk a run can start if and only if none of the four marker files, written out, is there |
| `Activator.BackupFirstIff` | src/active.ts:416-417 | in all states of all sequences of runs a changed destination means a complete backup, if and only if no staged file with other contents goes to the backup's place |
| `Activator.BackupLost` | src/active.ts:416-417 | for every run where one does, a reachable state with the root changed and the key lost |
| `Activator.CarelessRun` | src/active.ts:416-417 | one such run, and the disk it leaves |
| `Activation.MarkersOfOneRun` | src/make_config.ts:614-622 | every marker on the disk after a run started comes from that run, with its bytes |
| `Activation.BarredForGood` | src/active.ts:297-322 | with a marker on the disk and no run under way nothing changes any more |
| `Activation.CompletedForGood` | src/make_config.ts:691-702 | a completed run has put everything in place, and no later run changes the disk |
| `Activator.Root.Replace` | src/active.ts:231-253 | with a fault at any system call, the file is wholly replaced or nothing changes |
| `Activator.Root.SaveOwnerKeyBackup` | src/active.ts:267-280 | an existing backup is never overwritten; otherwise it is whole or absent |
| `Activator.Root.CommitStagedTree` | src/active.ts:255-265 | exactly the files before the first fault are in place |
| `Activator.Root.ActivateOffline` | src/active.ts:344-417 | refused, with the disk left alone, exactly by a missing directory, one of the four marker files, an existing backup or a fault at the backup; else applied as far as the first fault |
| `Activator.ProgramIsRun` | src/active.ts:344-417 | the program's order of calls is a run of the protocol, and it can stop anywhere |
| `Activator.CanStop` | src/active.ts:231-253 | whenever a run is under way it can end there, with its temporary file removed or left behind |
| `Pairing.PairingUnique` | src/read_aicc_log.py:517-523 | there is one pairing of takers with the earliest unused putter of their key |
| `Pairing.PairingLaws` | src/read_aicc_log.py:517-523 | partners come earlier and share the key, none is used twice, and one key is served in order |
| `Pairing.TakeStep` | src/read_aicc_log.py:148-155 | popping the first of a queue gives the reference's partner and keeps every queue non-empty and exact |
| `LogEntries.MergeKeepsKey` | src/read_aicc_log.py:129-145 | merging records of one key leaves the key unchanged |
| `LogEntries.MergeCanChangeKey` | src/read_aicc_log.py:129-145 | with different keys it can change |
| `LogEntries.ParseEntries` | src/read_aicc_log.py:492-531 | for every log the entries are those of the reference: inputs merged with the earliest unused start of their key, outputs with the earliest unused input |
| `LogEntries.ReportUnique` | src/read_aicc_log.py:492-531 | the reference allows one list of entries only |
| `LogReport.OutputPartner` | src/read_aicc_log.py:119-126 | an output is paired with the earliest earlier input that agrees with it on instance, model and trace, name by name, and that no output took; without a partner there is none |
| `LogReport.InputPartner` | src/read_aicc_log.py:517-520 | the same of inputs and the records of provider starts |
| `LogReport.MergeAt` | src/read_aicc_log.py:129-136 | each name of the overlay keeps its value, each other the base's, and model and instance are filled in only where neither has them |
| `LogReport.ContextIs` | src/read_aicc_log.py:501-505 | what is known about a task after any number of lines: under each name what its lines said last, and for model and instance else what they said first under the stand-in |
| `LogReport.StartSays` | src/read_aicc_log.py:507-510 | what the record of a provider start says under each name |
| `LogReport.RecordSays` | src/read_aicc_log.py:516-525 | what the record of every call says under each name, in terms of its partner's record |
| `LogReport.ReportLists` | src/read_aicc_log.py:526-531 | the entries are those of all calls, and of errors if asked for, in the order of the log, each with its line's time, direction, payload and record |
| `Base64Url.DecodeEncode` | src/rootfs/bin/service_debug.tsx:356-369 | the decoder inverts both encoders on every byte string |
| `Base64Url.EncodedShape` | src/make_config.ts:189-192 | both encoders agree, their text is url-safe, and its length is never one more than a multiple of four |
| `Base64Url.DecodeDefinedIff` | src/rootfs/bin/service_debug.tsx:356-361 | url-safe text decodes if and only if its length is not one more than a multiple of four |
| `Base64Url.EncodeDecodeIff` | src/rootfs/bin/service_debug.tsx:356-369 | url-safe text that decodes is what its bytes encode to if and only if its last digit holds no spare bits |
| `Base64Url.EncodeText` | src/rootfs/bin/service_debug.tsx:363-369 | the encoder's loop, and that its result decodes to the input |
| `Base64Url.EncodedAt` | src/rootfs/bin/service_debug.tsx:363-369 | each character of the encoded text is the six bits of the input at its place in the url alphabet, 62 as '-' and 63 as '_' |
| `Base64Url.AtobIff` | src/rootfs/bin/service_debug.tsx:356-361 | exactly which texts `atob` takes, and what they stand for: white space aside, digits with no padding or with just enough |
| `Base64Url.TokenRoundTrip` | src/rootfs/bin/service_debug.tsx:427-433 | a compact token has exactly three parts, the same by either encoder, and decoding gives the payload bytes |
| `Base64Url.PayloadIsSecond` | src/rootfs/bin/service_debug.tsx:371-376 | the payload of any text with a dot is its second part, decoded; a text without one has none |
| `MarkedBlock.RewrittenLines` | src/publish/make_local_deb.py:325-337 | the lines after a write: all lines outside the block in order, blank space at the end aside |
| `MarkedBlock.RewriteReplaces` | src/publish/make_local_deb.py:325-337 | with both markers there, written out, only what is between them is replaced; all lines before and behind stay in order, but for empty ones at the end |
| `MarkedBlock.RewriteAppends` | src/publish/make_local_deb.py:330-334 | without them the block goes behind the text without its blank end |
| `MarkedBlock.WriteClosed` | src/publish/make_local_deb.py:325-337 | the block reads back as written, and a second write replaces just that |
| `MarkedBlock.LastWriteWinsIff` | src/publish/make_local_deb.py:325-337 | for every text the last write wins if and only if the name is good and the block is not left open |
| `MarkedBlock.RewriteIdempotent` | src/publish/make_local_deb.py:325-337 | there, writing the same again changes nothing |
| `MarkedBlock.OpenBlockExample` | src/publish/make_local_deb.py:325-337 | a text with an open block, where the last write does not win |
| `PackageName.FilenameRoundTrip` | src/publish/package_common.py:70-78 | for every supported target and non-empty version exactly one pattern matches the built name, and gives its parts back |
| `PackageName.FilenameIs` | src/publish/package_common.py:61-78 | the name of every package written out, for all spellings of the architecture, and exactly which targets have one |
| `PackageName.MatchIff` | src/publish/package_analyzer.py:454-478 | a name gives exactly the parts it is written out of |
| `PackageName.InferFromFilename` | src/publish/package_analyzer.py:454-478 | the first match is the only one; no result means no pattern matches |
| `PackageName.InferredBuilds` | src/publish/package_analyzer.py:454-478 | what is inferred builds the same name again if and only if it was under the platform's own name and with a canonical architecture |
| `ManifestMerge.AppendAllIsNew` | make_local_pkg.py:203-213 | appending one by one gives the original list, then the first occurrence of every new key |
| `ManifestMerge.NewIff` | make_local_pkg.py:203-213 | an item is left out if and only if one before it has the same stripped target and the same stripped source |
| `ManifestMerge.AppendUniqueItem` | make_local_pkg.py:203-213 | the loop appends an item exactly if no item has its stripped target and source |
| `ManifestMerge.MergeAllIsNew` | make_local_pkg.py:227-235 | any number of merges gives the original list, then the first occurrence of every new key |
| `ManifestMerge.MergedBefore` | make_local_pkg.py:227-235 | in any sequence of merges, one whose keys were all merged before adds nothing |
| `ManifestMerge.CollectedStep` | make_local_pkg.py:227-235 | one more merge of a list keeps it the original followed by the first occurrence of every new key; one that offers what an earlier one did changes nothing |
| `ManifestMerge.RecordsFaithful` | make_local_pkg.py:415-436 | after any merges there is one record per dependency (key, type and project file), listing each platform it was merged for, once |
| `ManifestMerge.RecordsInOrder` | make_local_pkg.py:415-436 | each dependency is recorded as it was first merged, in the order of first merges |
| `ManifestMerge.PlatformsInOrder` | make_local_pkg.py:415-436 | its platforms are listed in the order in which it was first merged for each |
| `ManifestMerge.Project.MergeDependency` | make_local_pkg.py:438-461 | refused if the dependency is not found; otherwise the three item lists and the records stay what the whole history of merges comes to, and a dependency merged before, for any platform, changes no item |
| `ManifestMerge.Project.MergeDependencies` | make_local_pkg.py:520-527 | the loop over dependencies stops at the first that is not found, with the project as merged so far; dependencies all merged before leave the items alone |

## Left out

- Websocket reading and writing, event publishing, and the cancellation of a call in flight in the event bridge; hashes, URL parsing and ids are parameters, ids being fresh over the whole history.
- The checks and merges of the other packaging scripts (RPM, macOS, Windows), which are near copies of the Debian ones.
- Symbolic links, file modes, ownership and dry runs in the file tree; a target root that is the top of the file system; sources that lie inside the target, and the order in which a source is looked up.
- The order of a directory listing.
- UpdateTheorems.LastModuleWins: says nothing where the last module holds nothing; SteadyPlans.UpdateLeaves does.
- PayloadTheorems.StagedPayloadIff: item paths that hold a `.`, `..` or empty segment or a backslash, whose last segment ends in a blank, or that start with two slashes are not covered.
- PayloadReport.ReportIff: as PayloadTheorems.StagedPayloadIff.
- ReportEntries.ReportSays: as PayloadTheorems.StagedPayloadIff; says nothing about the order of entries, which PayloadVerifier.VerifyPayload fixes.
- PayloadTheorems.StagingSucceeds: as PayloadTheorems.StagedPayloadIff.
- Staging.Payload.StageAppRoot: does not say what tree a failed staging leaves, because the build stops there.
- PayloadPaths.UnexpectedPaths: gives the set of paths, not the sorted list.
- Installer.SafeJoin: does not resolve symbolic links.
- Activation.OldOrComplete: does not model directories and file modes.
- Activator.Root.Replace: the temporary name is taken to be unused.
- MarkedBlock.LastWriteWinsIff: lines end with newlines only; the other line boundaries that Python knows are not modelled.
- PackageName.InferFromFilename: names hold no newline and no slash, and the bare suffix of a name that matches nothing is not returned.
- ManifestMerge.Project.MergeDependency: rebasing an item and what a project file holds under a key are parameters that do not change between merges; reading project files and listing item files are not modelled.
- LogEntries.ParseEntries: recognising single log lines is left to the line type.
- JSON, UTF-8 and signatures inside tokens; the PEM wrapper around keys.
- Building, starting, stopping and backing up a system, the activation of other nodes over the network, and the web pages.
