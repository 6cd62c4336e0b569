# sandboxsh, modelled in Dafny

sandboxsh keeps one persistent Incus VM per project on a Linux host, behind a host-enforced network
ACL. This project models the parts of it that keep state and have to be right under failure, and
proves what they promise. `dafny verify dfyconfig.toml` checks everything.

## The image builder

The golden image is built stage by stage, and every finished stage stays behind as a stopped instance
named by its key, a content address of everything the stage depends on. A build copies the deepest
instance it can reuse into a worker, puts the worker behind the build ACL, runs the next stage, seals
the worker, stamps it and renames it into the cache; the last one is published.

* `Framing`, `StageKeys`: the keys. A key is a structured term (`Key`); `Render` is the hexadecimal
  text that the source computes from it, for any hash, and `RenderInjective` and `InvalidationExact`
  show that for a collision-free one nothing is lost by working with the terms.
* `History`: what an instance *contains* is its history: the source image and the stage executions,
  each with its script, arguments, pushed files, generations and the allowlist in force. No claim is
  made that a download gives the same bytes twice.
* `Host`: the world (instances, ACL, images, manifest, clock) and the class `Incus` of commands on it.
  Every command may fail, and a failed one may have done nothing, everything, or damaged the disk of
  a running guest. Every command appends the world it leaves to `trace`, so what is proved of the
  whole trace is proved of a process killed after any command. Commands inside a guest need its agent
  to have answered, and cloud-init may write the hosts file anew until it is done.
* `BuildPlan`: the plan: hits, misses, and the reasons printed for a miss.
* `CacheInvariant`: what every command keeps. `Safe` says that each entry is complete, stopped and off
  the pins, that its stamps and its content are those its own key denotes, that a published image with
  a key contains what the key denotes, and that no worker runs without the ACL. A `Promise` adds what
  holds of a build or prune beyond that: parent-closure, the bound on generations, the pace of stamps.
* `RunOutcomes`, `ImageBuilder`: what a stage and a run leave behind, and the builder itself, method by
  method and command by command.
* `BuildCommands`: the commands `build` and `prune` around it.
* `CacheHistory`: what follows for whole histories of builds and prunes.
* `ActorSteps`, `BuildLock`: several of them at once, interleaved command by command, with and without
  the lock. The builder keeps a ghost `run`, which shows that the commands it issues, one by one, are
  the steps of such an actor.

## Policy and reconciliation around it

* `AclPolicy`: resolved endpoints grouped into egress rules, read back from their text.
* `HostsBlock`, `GuestPins`: the block of pinned hosts in a guest's `/etc/hosts`, and what a policy
  writes there.
* `GuestWait`: the bounded wait for a guest command, over a real-valued clock.
* `Mounts`, `MountTargets`: workspace devices kept in line with the configuration, mount rows read back
  from them, and the choice of guest paths.
* `HostPorts`, `PublishHelper`, `PortCommands`: host ports reserved across projects, the systemd units
  that the privileged helper keeps for them, and the commands that act on both.

## Where the code gives less than it seems to

Each of these is proved: a concrete state or run that shows it, or an exact condition, or both.

* Parent-closure of the cache, on which every rename relies, is broken not only between the deletion and
  the rename of a `--no-cache` build. `prune` deletes in the order of the key texts, so one that is
  interrupted may have deleted a parent and not its child (`HalfPruneCanOpen`); a build of that
  generation is then stopped by a taken name (`GapStopsBuild`). The chains that the prune keeps are not
  concerned (`KeptTargetsFree`). `PartialPruneClosed` is the exact condition on the order and
  `CutPruneClosed` the one on where it stops; `NoCacheBuildClosedExact` is the one for a `--no-cache`
  build that ended and `GapClosedExact` for one that may have been killed. `LifeClosedExact` puts them
  together for any sequence of commands.
* A stage whose script has run is executed again by the next build if removing its files, unpinning,
  flushing, stopping or detaching then failed, and also if its commit failed without effect
  (`BuildResumes`). No stage gets its entry from both.
* A `--no-cache` build that fails leaves the old entries of the later stages, and that of the stage that
  failed unless its commit had deleted it. The next build finds them, and does not resume where the
  failed one stopped (`FailedRebuildKeepsHits`); `ResumesExactly` says how far it gets.
* `--refresh` after `--generation` lowered the number uses a generation again, and may find its stages
  cached (`RollbackThenRefreshReuses`). `RefreshReusesNothing` says exactly when it reuses nothing.
* `--refresh-from` the finalize stage changes no key, because that stage does not float
  (`RefreshFromEffective`).
* The age check reads one stamp, that of the deepest reused entry. The bounds proved therefore grow
  with the number of stages (`ReusedContentIsFresh`, `PublishedContentIsFresh`).
* An ACL that a run creates can outlive it without a word in the report, when its rules could not be
  written after it was created (`AclAbandoned`); the only other ACL that it leaves without a word is one
  that was there before and that it did not apply (`AclUnreportedExact`). Once it has been applied, only
  a kept worker or a reported cleanup error lets it survive; and where deletions work, only an
  instance the builder did not make can keep Incus from deleting it.
* Pinning loses the last line of a hosts file that does not end in a newline, when the block is removed
  again (`PinRoundTrip`, `PinReplaces`: exactly then).
* Publishing claims ports before it knows the guest's address. When it stops there, a port that is no
  longer approved is free for others while its listener is still up (`ClaimedSoundExact`,
  `DroppedPortKeepsOldListener`). Destroying a VM releases the ports even when the listeners could not
  be withdrawn (`Host.Destroy`, `DestroyLeavesOrphan`). `Troubled` names the projects that these two can
  concern, from the commands alone.
* A helper run that stops half-way leaves socket files rewritten and not restarted; the next run finds
  them unchanged and leaves the listeners at the old address (`RetryLeavesStaleListener`,
  `ServedCurrentExact`).
* The helper's glob for an instance also matches the units of an instance whose name goes on with a
  dash (`NeighbourCaught`, `GlobbedExactly`).

## Assumptions that appear as parameters or preconditions

Hash values, answers at prompts, addresses, resolved names, whether the helper is installed, which
systemd units refuse to start, whether Incus carries out forced deletions (`Incus.deletes`), whether
its failed commands are without effect (`Incus.honest`) and whether it carries out every other command
that it need not refuse (`Incus.able`, for the statements about progress), whether a caller grants the
privilege that an ACL takes, and when a process is killed are inputs, quantified over.
The clock never goes back: the statements about age need it, though the source reads the wall clock.
Stage lists are loaded ones (`Loaded`): non-empty, with pairwise distinct names, a `10-` stage first and
the finalize stage last. `span`, in the statements about age, is a bound on the duration of each build or
prune; the pauses between them are of any length. Handlers of the source catch ordinary exceptions only, so an interrupt from the keyboard counts as
a kill.

## Model

| member | source | states |
|---|---|---|
| Framing.Feed | src/sandboxsh/imagebuild.py:183-188 | the hash loop feeds exactly every part followed by a NUL, in order |
| Framing.FramingRoundTrip | src/sandboxsh/imagebuild.py:183-188 | reading a NUL-terminated stream back gives the parts exactly when no part contains the terminator |
| Framing.TerminatedInjective | src/sandboxsh/imagebuild.py:183-188 | two lists of parts without terminators never frame to one stream |
| Framing.TerminatorInsideAPartCollides | src/sandboxsh/imagebuild.py:183-188 | the condition is needed: a NUL inside a part makes two lists collide |
| Framing.JoinText | src/sandboxsh/imagebuild.py:228-234 | hosts are joined by single commas |
| Framing.HostListRoundTrip | src/sandboxsh/imagebuild.py:228-232 | a comma-joined allowlist splits back into the same list exactly when its hosts are non-empty and free of commas |
| Framing.DecimalRoundTrip | src/sandboxsh/imagebuild.py:228-232 | a number written in decimal reads back as itself |
| StageKeys.ComputeStageKeys | src/sandboxsh/imagebuild.py:219-240 | the loop over the stages gives the key of each position, each linked to the key before it and the first to the source key |
| StageKeys.KeyAtShaped | src/sandboxsh/imagebuild.py:125-157 | in a loaded chain only the finalize stage has no epoch and only the user and helper stages declare inputs |
| StageKeys.KeyText | src/sandboxsh/imagebuild.py:219-240 | the bytes that a key is hashed from, in order: the parent key, the stage, its script and its declared inputs, and the text of its epoch, each closed by a NUL |
| StageKeys.DeclaredText | src/sandboxsh/imagebuild.py:93-106 | the declared inputs as text: uid and gid of the user stage, one digest for each helper file, nothing otherwise |
| StageKeys.EpochText | src/sandboxsh/imagebuild.py:229-236 | the epoch as text: generation, stage generation and allowlist, and nothing for a stage that does not float |
| StageKeys.SourceText | src/sandboxsh/imagebuild.py:203-205 | the bytes of the source key |
| StageKeys.RenderInjective | src/sandboxsh/imagebuild.py:183-240 | with a collision-free hash, two key texts are equal only for one source, one chain and one set of material: the text stands for the structured key |
| StageKeys.KeyAtExact | src/sandboxsh/imagebuild.py:219-240 | two inputs have one key at a position iff the source and every stage up to there agree in name, script, declared inputs and, where floating, generations and allowlist |
| StageKeys.InvalidationExact | src/sandboxsh/imagebuild.py:203-240 | the same for the key texts: invalidation is exact in both directions |
| StageKeys.ChainKeysDistinct | src/sandboxsh/imagebuild.py:219-240 | keys at different positions never coincide, even across two different inputs |
| StageKeys.ChainTextsDistinct | src/sandboxsh/imagebuild.py:219-240 | nor do their texts within a chain |
| History.AllowOfKeyAt | src/sandboxsh/imagebuild.py:227-236 | the allowlist and the source that a key denotes are those of the inputs, also for the finalize stage, whose own key does not name the allowlist |
| History.KeyDenotesFromScratch | src/sandboxsh/imagebuild.py:219-240 | the history that a key denotes is the pinned source followed by the requested execution of every stage up to it, once, in order |
| History.FromScratchRuns | src/sandboxsh/imagebuild.py:97-117 | each execution of a from-scratch build read from the inputs alone: the user stage gets uid and gid, in this order, and no other stage an argument; its script lies in `/root`, beside it the four helper files for the finalize stage and nothing otherwise; the generations are those asked for, and zero where the stage does not float |
| Host.Incus.Apply | src/sandboxsh/incus.py:734-773 | one command on one instance: its whole effect, or a failure that may have had none, all, or damaged the disk of a running guest |
| Host.Incus.Init | src/sandboxsh/imagebuild.py:981-1003 | a new worker holds the pinned source image and nothing else |
| Host.Incus.Copy | src/sandboxsh/incus.py:329-330 | a copy carries everything of the copied instance, and needs it to exist |
| Host.Incus.Delete | src/sandboxsh/incus.py:335-336 | a forced deletion removes at most the one instance |
| Host.Incus.Rename | src/sandboxsh/incus.py:332-333 | a rename moves a stopped instance to a free name, or changes nothing |
| Host.Incus.CreateAcl | src/sandboxsh/incus.py:673-684 | creating the ACL keeps one that is already there |
| Host.Incus.PutAcl | src/sandboxsh/incus.py:685-685 | writing the rules replaces those of an existing ACL |
| Host.Incus.DeleteAcl | src/sandboxsh/incus.py:774-778 | the ACL goes only when no instance names it; a missing one is no error |
| Host.Incus.DetachAcl | src/sandboxsh/incus.py:761-772 | the ACL reference of one instance is dropped; a missing instance is no error |
| Host.Incus.Publish | src/sandboxsh/incus.py:393-402 | the alias carries the content of a stopped instance and the given key |
| Host.Incus.SaveManifest | src/sandboxsh/imagebuild.py:446-464 | the saved manifest is the given one, whole, or saving fails and the old one stays |
| BuildPlan.ListEntries | src/sandboxsh/imagebuild.py:283-319 | a listing returns every cache entry with its stamps, once, and nothing that is not a stamped cache instance |
| BuildPlan.PlanSteps | src/sandboxsh/imagebuild.py:1138-1158 | a stage is a hit iff its entry and all before it are cached and the cache is in use; every miss carries its reason |
| BuildPlan.DeepestHit | src/sandboxsh/imagebuild.py:540-547 | the loop finds the last of the leading hits, or -1 |
| BuildPlan.HitPrefixUnique | src/sandboxsh/imagebuild.py:540-551 | the number of leading hits is determined by hits before and a miss after it |
| BuildPlan.CompareIsFirstDifference | src/sandboxsh/imagebuild.py:1178-1191 | the comparison with a sibling's stamps finds the first field in which the keys really differ |
| BuildPlan.MissDiagnosisExact | src/sandboxsh/imagebuild.py:1161-1191 | in a well-stamped cache the reason printed is the first real difference from the newest sibling, and no-entry is printed with a sibling present exactly when it is the first stage's key on another root |
| BuildPlan.MissAlwaysExplained | src/sandboxsh/imagebuild.py:1161-1191 | a miss with a sibling is explained exactly unless the newest one grew on another root, which needs a second architecture for the source image or another first stage before |
| BuildPlan.DiagnosisOfListing | src/sandboxsh/imagebuild.py:1161-1191 | the reason printed for the first missing stage, in terms of the listing alone: if some entry of the stage grew on the same parent (on the same source, for the first stage), the first difference from a newest such entry; else that the source changed, if it is the first stage and has entries; else that there is none |
| BuildPlan.ReasonsOfPlan | src/sandboxsh/imagebuild.py:1138-1176 | the reasons of a whole plan: hits say so, everything is refused under `--no-cache`, only the first miss is diagnosed, and every stage after it has a changed parent |
| CacheInvariant.KeyAtWithin | src/sandboxsh/imagebuild.py:219-240 | no key asks for a newer generation or stage generation than the manifest it was computed from |
| CacheInvariant.WithinRises | src/sandboxsh/imagebuild.py:735-758 | raising the generations of the manifest, or those of its stages, keeps every key within them |
| CacheInvariant.NoneNewerOfStages | src/sandboxsh/imagebuild.py:735-758 | the bound on all generations contains the bound on those of the stages |
| CacheInvariant.WorkerCommandKeeps | src/sandboxsh/imagebuild.py:907-972 | a command on a worker that leaves it behind the ACL or stopped keeps the cache invariant |
| CacheInvariant.DisciplinedKeeps | src/sandboxsh/imagebuild.py:922-960 | so does every command of a stage, in each way it can fail |
| CacheInvariant.AclCommandKeeps | src/sandboxsh/incus.py:673-685 | so do the commands on the ACL |
| CacheInvariant.PublishKeeps | src/sandboxsh/imagebuild.py:1005-1020 | publishing a well-stamped entry makes an image whose content is what its key denotes |
| CacheInvariant.SaveManifestKeeps | src/sandboxsh/imagebuild.py:842-842 | saving a manifest keeps the invariant, and the generation bound if no generation is lowered |
| CacheInvariant.DetachEntryKeeps | src/sandboxsh/imagebuild.py:894-899 | detaching an entry from the ACL changes no entry's stamps or content |
| CacheInvariant.DeleteEntryKeeps | src/sandboxsh/imagebuild.py:380-388 | deleting an entry keeps everything but parent-closure, which then has that one gap at most, below entries that were there when the build began |
| CacheInvariant.CommitKeeps | src/sandboxsh/imagebuild.py:331-374 | a rename makes exactly one new entry, the finished worker, keeps the invariant, and closes the gap in its own place |
| CacheInvariant.FilledGap | src/sandboxsh/imagebuild.py:358-361 | a cache that lacks nothing but the new entry is whole once the entry is there: closed, and without the loss of any entry |
| RunOutcomes.MissingStaysMissing | src/sandboxsh/imagebuild.py:1138-1158 | in a parent-closed cache no stage after a missing one is cached |
| RunOutcomes.HitsAreEntries | src/sandboxsh/imagebuild.py:1138-1158 | the hits of a plan are entries, and the reused one is the entry of the last hit |
| RunOutcomes.FirstMissNotCached | src/sandboxsh/imagebuild.py:1138-1158 | the first stage to build has no entry |
| RunOutcomes.RenameTargetsFree | src/sandboxsh/imagebuild.py:331-361 | in a parent-closed cache the name of every stage to build is free |
| RunOutcomes.StageRunEffect | src/sandboxsh/imagebuild.py:922-955 | running a stage on a copy of its parent, behind the ACL and with its files pushed, gives exactly the history that its key denotes |
| RunOutcomes.StageFilesGone | src/sandboxsh/imagebuild.py:951-953 | removing the pushed files leaves none of them |
| RunOutcomes.StampedIsWelcome | src/sandboxsh/imagebuild.py:341-360 | a complete worker stamped at commit is a true entry for its key, within the manifest and in time |
| ImageBuilder.Builder.PrepareWorker | src/sandboxsh/imagebuild.py:919-925 | the worker starts from the pinned source for the first stage and from a copy of the parent entry otherwise; a failed init leaves it stopped and off the ACL |
| ImageBuilder.Builder.StartWorker | src/sandboxsh/imagebuild.py:926-932 | the worker is started only once the ACL is attached; its hosts are pinned only once its agent answers, and after cloud-init, whose last writing of the hosts file would undo it; a host on which everything works is waited for to the end |
| ImageBuilder.Builder.PushFiles | src/sandboxsh/imagebuild.py:933-937 | exactly the stage's files are pushed |
| ImageBuilder.Builder.RunScript | src/sandboxsh/imagebuild.py:933-953 | the script runs once over the pushed files, and none is left |
| ImageBuilder.Builder.SealWorker | src/sandboxsh/imagebuild.py:954-961 | the worker ends unpinned, flushed, stopped and off the ACL |
| ImageBuilder.Builder.RunWorker | src/sandboxsh/imagebuild.py:926-961 | all commands of a stage together turn a prepared worker into a complete one for the stage's key |
| ImageBuilder.Builder.DiscardWorker | src/sandboxsh/imagebuild.py:376-378 | the worker is deleted, if deletions work; nothing else is touched |
| ImageBuilder.Builder.DeleteExisting | src/sandboxsh/imagebuild.py:358-360 | the entry to replace is deleted, if deletions work; no other is, and a closed cache has no other gap |
| ImageBuilder.Builder.Place | src/sandboxsh/imagebuild.py:361-361 | the rename succeeds only on a free name, and then the entry is the worker |
| ImageBuilder.Builder.StampWorker | src/sandboxsh/imagebuild.py:331-357 | the stamps written are those of the key, with the time in whole seconds |
| ImageBuilder.Builder.Commit | src/sandboxsh/imagebuild.py:331-374 | done: the entry carries its key's stamps and the time, and a closed cache is closed again without loss; failed: a failed command, or a taken name, which without an entry to replace always fails it; what has no entry then is in its worker, stopped and off the ACL |
| ImageBuilder.Builder.BuildStage | src/sandboxsh/imagebuild.py:907-979 | a stage adds at most the entry of its own key, changes no other entry, and reports a kept worker iff asked to keep; when deletions work it leaves no other running worker and none on the ACL |
| ImageBuilder.Builder.RemoveLeftoverWorkers | src/sandboxsh/imagebuild.py:902-905 | only workers are deleted, and all of them if deletions work |
| ImageBuilder.Builder.ApplyAcl | src/sandboxsh/incus.py:662-686 | success leaves the ACL with the requested allowlist; a failure leaves it as it was, created without rules, or written, by the step that failed |
| ImageBuilder.Builder.DetachEntry | src/sandboxsh/imagebuild.py:897-898 | detaching one entry takes it off the ACL and no other on it |
| ImageBuilder.Builder.ReleaseAcl | src/sandboxsh/imagebuild.py:894-899 | every listed entry is detached first, then the ACL is deleted; refused only if an instance that is no entry names it; nothing but entries is touched |
| ImageBuilder.Builder.BuildStages | src/sandboxsh/imagebuild.py:858-864 | the loop builds from the deepest hit on, each stage on the one before, until one fails |
| ImageBuilder.Builder.PublishTemplate | src/sandboxsh/imagebuild.py:1005-1020 | the alias gets the key and content of the whole chain |
| ImageBuilder.Builder.Attempt | src/sandboxsh/imagebuild.py:852-866 | the ACL is applied iff something is to be built; the outcome is one of its failures or everything built and published |
| ImageBuilder.Builder.AttemptAndRelease | src/sandboxsh/imagebuild.py:845-892 | the guarded part of a run and the release of its ACL, with the outcome for cache, ACL and workers; the ACL is not released while a kept worker needs it |
| ImageBuilder.Builder.Run | src/sandboxsh/imagebuild.py:825-892 | a run's effect on cache, images, manifest, ACL and workers, for every outcome: an applied ACL survives only with a kept worker or a cleanup error in the report, a failed apply leaves what its step allows, and no worker but the reported or an idle one survives; it finishes, if every command works, iff nothing is in its way; and its commands are the steps of one actor |
| BuildCommands.PinSource | src/sandboxsh/imagebuild.py:701-710 | the pin is the manifest's unless absent or refreshed, and then it is recorded |
| BuildCommands.MakePlan | src/sandboxsh/imagebuild.py:725-784 | the plan follows from manifest, settings and request; a no-op is declared only for the published key |
| BuildCommands.RefreshReusesNothing | src/sandboxsh/imagebuild.py:742-744 | `--refresh` is no no-op and has no hit exactly when the cache is not in use, or neither the image nor the cache has the new keys; so it is while no stamp exceeds the manifest |
| BuildCommands.ReusesNothingExact | src/sandboxsh/imagebuild.py:1138-1158 | any build reuses nothing exactly when the cache is not in use or its first key has no entry |
| BuildCommands.RefreshFromRebuildsTheRest | src/sandboxsh/imagebuild.py:746-755 | `--refresh-from` a floating stage keeps the keys before it, reuses neither it nor anything after, and hits all before it iff they are cached; it needs only that no stamp exceeds the stage generations, which no command lowers |
| BuildCommands.RefreshFromEffective | src/sandboxsh/imagebuild.py:227-236 | `--refresh-from` changes the build key iff the stage is floating |
| BuildCommands.RollbackThenRefreshReuses | src/sandboxsh/imagebuild.py:735-744 | a refresh that failed after its first stage, a no-op back to the old generation, and a second refresh, whose plan has a hit |
| BuildCommands.Build | src/sandboxsh/imagebuild.py:786-823 | every command of a build keeps the cache invariant: closure without loss, with one gap, on the requested chain, where `--no-cache` replaces an entry; the bound on stage generations, and on all unless `--generation` lowers it; the pace unless `--allow-stale`; no name is ever taken in a closed cache; it refuses as stale exactly what is too old; and if every command works, the run finishes iff nothing is in its way. `--dry-run` plans, changes nothing and says so; without it a working host is built on, with the caller's privilege asked for iff there is something to build |
| BuildCommands.Chains | src/sandboxsh/imagebuild.py:1045-1061 | the keys to keep are all keys of the current generation's chain, whatever else is asked for, and of the chains of up to `previous` earlier generations that are not negative, under the current pin; and no other key |
| BuildCommands.ToKeepClosed | src/sandboxsh/imagebuild.py:1045-1061 | with a key its parent is kept |
| BuildCommands.PruneEntries | src/sandboxsh/imagebuild.py:380-388 | deletes only entries outside the kept set, one after the other in the order of the listing, wherever it is stopped; when it completes, all of them; it completes if every command works |
| BuildCommands.Prune | src/sandboxsh/imagebuild.py:1093-1103 | under the lock, keeps exactly the chains just named, for `--all` only the current one; touches nothing but entries; fails only if a command fails |
| CacheHistory.BuildRefinesFromScratch | src/sandboxsh/imagebuild.py:786-892 | after a successful build, or a no-op, the alias carries exactly the from-scratch history of its inputs, whatever was cached before |
| CacheHistory.BuildRunsAllStages | src/sandboxsh/imagebuild.py:93-117 | the same from the settings, the request and the saved manifest alone: the published image holds the pinned source and every stage once, in order, with the right arguments, files, allowlist and generations; the manifest has risen by exactly what was asked for |
| CacheHistory.NothingToDoExact | src/sandboxsh/imagebuild.py:812-823 | a build has nothing to do exactly when the cache is in use and the image carries the requested key; a dry run, a refused privilege and a refusal as stale change nothing |
| CacheHistory.RefusesExactly | src/sandboxsh/imagebuild.py:825-841 | a run is refused exactly when neither `--allow-stale` nor `--refresh` was given and the deepest entry it would reuse is older than three times the configured days |
| CacheHistory.BuildConverges | src/sandboxsh/imagebuild.py:535-538 | planning again after a successful publish is a no-op |
| CacheHistory.PlansOutlastPause | src/sandboxsh/imagebuild.py:725-784 | the plans that can be made after a pause are those that could be made before it, so what is said of the next plan holds whenever it is made |
| CacheHistory.BuildResumes | src/sandboxsh/imagebuild.py:858-864 | in a closed cache that is in use: after a failed stage the next plan's hits end just before it, or just after it if its commit worked all the same; each missing stage gets its entry from exactly one of the two builds; a commit that failed without effect has left an executed stage that is executed again |
| CacheHistory.ResumesExactly | src/sandboxsh/imagebuild.py:858-864 | whatever was cached and whether or not the cache was in use: the next plan starts at the failed stage iff that has no entry, which before its commit is as it was before the build; else it starts as far beyond as entries reach, and never before it; it is a no-op iff the image was published already |
| CacheHistory.FailedRebuildKeepsHits | src/sandboxsh/imagebuild.py:812-864 | a `--no-cache` build whose first stage fails over a full cache, after which every stage is a hit |
| CacheHistory.ClosedCacheIsClear | src/sandboxsh/imagebuild.py:825-892 | in a closed cache, and with `--no-cache` in any, no entry is in the way of a build: only its age or a foreign instance on the ACL can be |
| CacheHistory.PublishOnlyRetry | src/sandboxsh/imagebuild.py:816-866 | after `--no-publish` or a failed publish the next build, however much later and however it ends, rebuilds nothing, changes no entry and touches no ACL |
| CacheHistory.PruneKeepsHits | src/sandboxsh/imagebuild.py:1093-1103 | pruning changes no hit of a chain whose keys are kept, wherever it is stopped |
| CacheHistory.KeptChainInside | src/sandboxsh/imagebuild.py:1045-1061 | the current chain and those of the kept generations are such chains |
| CacheHistory.PruneKeepsClosed | src/sandboxsh/imagebuild.py:1093-1103 | a completed prune keeps parent-closure |
| CacheHistory.PartialPruneClosed | src/sandboxsh/imagebuild.py:380-388 | a prune keeps parent-closure wherever it is stopped, exactly when its order deletes no parent before its child |
| CacheHistory.CutPruneClosed | src/sandboxsh/imagebuild.py:380-388 | a prune that is stopped somewhere leaves a closed cache closed exactly when it has not deleted the parent of an entry still to be deleted |
| CacheHistory.GenerationNotKept | src/sandboxsh/imagebuild.py:1045-1061 | a generation outside the kept range has its first stage deleted |
| CacheHistory.KeptTargetsFree | src/sandboxsh/imagebuild.py:1093-1103 | the kept chains have no gap, wherever a prune is stopped |
| CacheHistory.HalfPruneCanOpen | src/sandboxsh/imagebuild.py:380-388 | a host and a generation that is not kept: between its first two deletions the cache is open, and the name of its second stage is taken |
| CacheHistory.TakenNameStopsBuild | src/sandboxsh/imagebuild.py:331-361 | such a build gets through its stages only if none of them has an entry past the first miss |
| CacheHistory.GapStopsBuild | src/sandboxsh/imagebuild.py:331-361 | a chain with a gap before an entry stops every build that uses the cache |
| CacheHistory.NoCacheBuildClosesAgain | src/sandboxsh/imagebuild.py:358-361 | a `--no-cache` build that gets through its stages leaves the cache closed, also one whose missing entries are on its chain |
| CacheHistory.NoCacheBuildClosedExact | src/sandboxsh/imagebuild.py:358-361 | over a closed cache it ends open exactly when a commit failed after the deletion and the deleted entry had a child |
| CacheHistory.AclUnreportedExact | src/sandboxsh/imagebuild.py:852-890 | an ACL is there after a run unreported exactly when the run did not apply it and either it was there before or writing its rules failed, if failed commands have no effect |
| CacheHistory.AclAbandoned | src/sandboxsh/incus.py:673-686 | the two commands that do it |
| CacheHistory.PacedLineAddsUp | src/sandboxsh/imagebuild.py:341-341 | the stamps along a chain are at most a ceiling and a span apart each |
| CacheHistory.ReusedContentIsFresh | src/sandboxsh/imagebuild.py:558-573 | what a build reuses first ran at most (hits) x (ceiling + span) ago, though only the deepest entry's stamp is looked at |
| CacheHistory.PublishedContentIsFresh | src/sandboxsh/imagebuild.py:835-841 | what it publishes, or has ready to, first ran at most (stages) x (ceiling + span) + span ago |
| CacheHistory.Lifetime | src/sandboxsh/imagebuild.py:786-892 | any sequence of builds and prunes, each killed after any command, with pauses of any length: entries stay true, bystanders change in pauses only; the cache stays closed iff every ending keeps it so, as that of a build that uses the cache always does; the bound on stage generations is never lost, that on all while no command lowers it; the pace is kept while every build checks ages and every build and prune takes at most `span`; and each command that is not killed, on a host that works, does what it was asked to |
| CacheHistory.Perform | src/sandboxsh/imagebuild.py:786-823 | one command, killed after any of its steps, ends in one of the recorded endings: some first deletions of a prune done; or a build with a result or without, which lacks at most one entry, on the requested chain, that its actor was replacing where it stood; not killed and on a host that works, it achieves what was asked |
| CacheHistory.ClosedStepExact | src/sandboxsh/imagebuild.py:786-823 | a command leaves a closed cache closed iff its ending does: no deleted entry without replacement that had a child, no prune stopped between a parent and its child |
| CacheHistory.GapClosedExact | src/sandboxsh/imagebuild.py:358-361 | over a closed cache at most one entry is missing wherever a build is killed, and the cache is closed iff none is or the missing one had no child |
| CacheHistory.GapOfResult | src/sandboxsh/imagebuild.py:358-361 | a build that was not killed lacks an entry only with `--no-cache` and a failed commit, and then that of the stage being committed |
| CacheHistory.LifeClosedExact | src/sandboxsh/imagebuild.py:786-823 | all worlds of a life up to any point are closed iff the first is and every ending up to there keeps it so |
| CacheHistory.LifeKeepsBounds | src/sandboxsh/imagebuild.py:735-758 | over a life stage generations bound every stamp, and all generations do while each command keeps that of the manifest it meets |
| CacheHistory.LifeKeepsPace | src/sandboxsh/imagebuild.py:835-841 | over a life stamps keep their pace while each build checks ages and each build and prune takes at most `span`, whatever the pauses |
| CacheHistory.LifeContentIsFresh | src/sandboxsh/imagebuild.py:558-573 | in such a life every build that ends reuses only content at most (hits) x (ceiling + span) old, and what it publishes is at most (stages) x (ceiling + span) + span old |
| BuildLock.InvariantStep | src/sandboxsh/imagebuild.py:475-501 | under the lock every step of every actor keeps true what the lock's holder remembers |
| BuildLock.LockedExecutionsAreSafe | src/sandboxsh/imagebuild.py:475-501 | in every locked interleaving parents exist when copied, no live worker is deleted by another actor, and every builder's own allowlist is in force |
| BuildLock.RunIsExecution | src/sandboxsh/imagebuild.py:786-1020 | what the methods of the builder issue, command by command, is an execution under the lock beside any number of idle actors |
| BuildLock.RunIsSafe | src/sandboxsh/imagebuild.py:786-1020 | so in every world that a build or prune leaves, the parent, worker and allowlist that its actor relies on are in place |
| BuildLock.RunStepIsNext | src/sandboxsh/imagebuild.py:786-1020 | each command of the builder is a step of any system in which its actor stands where the builder does |
| ActorSteps.RunLacks | src/sandboxsh/imagebuild.py:331-374 | wherever a build stands, an entry that was there at its beginning is missing only between the deletion and the rename of its stage under `--no-cache`, or once such a stage has failed |
| BuildLock.UnlockedBuildsCollide | src/sandboxsh/imagebuild.py:475-501 | without the lock two builds reach states in which a live worker is deleted as a leftover, and in which a build runs behind the other's allowlist |
| BuildLock.UnlockedPruneCollides | src/sandboxsh/imagebuild.py:1093-1103 | without the lock a prune deletes the entry that a build is about to copy |
| AclPolicy.BuildAclPolicy | src/sandboxsh/security.py:430-514 | the policy fails iff an address that was resolved is refused or a project host does not resolve; else its egress permits exactly the asked (protocol, address, port) triples, its ingress lets in the guest ports from the gateway and nothing if there are none, it records exactly the hosts that resolved, each with the addresses of its last entry that did, and lists the unresolved defaults |
| AclPolicy.RulesFor | src/sandboxsh/security.py:479-490 | grouping into rules loses and adds no triple |
| AclPolicy.RuleExact | src/sandboxsh/security.py:479-490 | one rule, read back from its comma-joined text, permits its group's addresses on its group's ports |
| AclPolicy.CoveredIsAsked | src/sandboxsh/security.py:453-490 | rules that cover every group permit exactly what the entries ask |
| AclPolicy.PinsArePermitted | src/sandboxsh/incus.py:697-706 | every address pinned in the guest is a destination of a rule, by the entry for that host, which has ports |
| AclPolicy.PinnedExactly | src/sandboxsh/incus.py:697-706 | which addresses of a host are pinned: those that can be dialed, no network and not the literal itself, and of these the IPv4 ones if there are any |
| AclPolicy.PinnedInOrder | src/sandboxsh/incus.py:697-706 | they are pinned in the order in which they were resolved |
| AclPolicy.ResolvedIsPinned | src/sandboxsh/incus.py:697-706 | the converse: what the last resolved entry of a host gave is recorded, and pinned as far as it can be dialed |
| HostsBlock.Unpin | src/sandboxsh/incus.py:723-732 | the loop drops every range from a begin marker to an end marker |
| HostsBlock.Pin | src/sandboxsh/incus.py:706-721 | an earlier block is removed and the new one appended |
| HostsBlock.PinnedHolds | src/sandboxsh/incus.py:706-721 | after pinning every entry is a line between the two markers, after the lines that were outside every block; an unfinished last line runs into the opening marker |
| HostsBlock.CleanFileKept | src/sandboxsh/incus.py:723-732 | a file without an opening marker is left alone |
| HostsBlock.UnpinAfterPin | src/sandboxsh/incus.py:706-732 | unpinning gives the earlier file without blocks, and the lines written after the block |
| HostsBlock.PinRoundTrip | src/sandboxsh/incus.py:706-732 | this is the original plus those lines iff the file without blocks ends in a newline |
| HostsBlock.PinReplaces | src/sandboxsh/incus.py:706-721 | pinning twice is pinning last, under the same condition |
| GuestPins.PinLines | src/sandboxsh/incus.py:697-706 | the lines written are one for each pinned address of each recorded host, address first, and no other |
| GuestPins.LineMentionsNoMarker | src/sandboxsh/incus.py:697-721 | no such line is taken for one of the markers |
| GuestPins.PinAllowlist | src/sandboxsh/incus.py:688-732 | the whole command: the file without its earlier blocks, the opening marker after what the last line left, the lines of the policy, the closing marker; and whatever is written later, unpinning takes just that away |
| GuestWait.WaitForGuestCommand | src/sandboxsh/incus.py:533-556 | returns only after a successful probe, raises only at the deadline, never passes it, probes at most ceil(timeout / 2) times, prints at most one notice, gives each probe ten seconds or what is left, and starts the next one two seconds after it ended |
| MountTargets.FirstFree | src/sandboxsh/config.py:327-332 | the suffix search ends with the first free of base, base-2, base-3 and so on |
| MountTargets.CandidatesDistinct | src/sandboxsh/config.py:327-332 | no two candidates are equal, which is why it ends |
| MountTargets.AllocateTargets | src/sandboxsh/config.py:286-350 | accepted: every target is the explicit or the first free one, and the root is mounted writable; rejected: for the reason given |
| MountTargets.TargetsInFull | src/sandboxsh/config.py:319-335 | what each entry gets, read from the entries alone: a given target without its trailing slashes, or the source directory's name under `/workspaces`, numbered from 2 on if that is taken; an empty target counts as none |
| MountTargets.GoodTargetExact | src/sandboxsh/config.py:321-324 | a target is accepted iff it starts with a slash and no component of it is `..` |
| MountTargets.AssignedDistinct | src/sandboxsh/config.py:333-335 | accepted targets are pairwise distinct |
| MountTargets.AssignedUnique | src/sandboxsh/config.py:286-350 | the allocation is the only one that fits the entries |
| Mounts.Instance.SyncMounts | src/sandboxsh/incus.py:489-527 | completed: the workspace devices are the wanted ones, all others untouched, exactly the changes reported; nothing to do: no command; it completes if every command works |
| Mounts.Instance.RemoveUnwanted | src/sandboxsh/incus.py:512-515 | removes exactly the workspace devices that no mount wants, each once, and fails only if a command fails |
| Mounts.Instance.SyncOne | src/sandboxsh/incus.py:516-526 | replaces a device iff it is missing or differs in source, path or readonly, by a disk with the mount's source, path and mode, and fails only if a command fails |
| Mounts.SyncedExactly | src/sandboxsh/incus.py:489-527 | what in line means, device by device: `workspace-0` and so on, with source, path and mode of each mount, and no other device of that prefix |
| Mounts.ReadRows | src/sandboxsh/incus.py:441-459 | collects the devices with a numeric suffix, sorted by it |
| Mounts.RowNamesExact | src/sandboxsh/incus.py:441-459 | the devices read are those whose name is the prefix and digits, sorted by the number that the digits stand for |
| Mounts.NumbersInPlace | src/sandboxsh/incus.py:441-459 | sorted items that show every number below n show them in place |
| Mounts.RowsInConfigurationOrder | src/sandboxsh/incus.py:441-459 | on synchronized devices the rows read back are the mounts in configuration order, for any number of them |
| HostPorts.ParsePorts | src/sandboxsh/config.py:242-260 | accepted iff guest ports and published host ports are distinct; the result is a permutation sorted by guest port; an error names the first entry that repeats an earlier one |
| HostPorts.PublishableSorted | src/sandboxsh/config.py:149-158 | the mappings to publish keep the order of the configuration |
| HostPorts.PublishableOncePerHost | src/sandboxsh/config.py:149-158 | the mappings to publish never repeat a host port |
| HostPorts.ApprovalKeyExact | src/sandboxsh/config.py:107-109 | an approval speaks of exactly one guest and one host port |
| HostPorts.Ledger.Split | src/sandboxsh/security.py:236-282 | approved and pending partition the requested mappings in order; the ledger gains only confirmed keys, and every approved one is in it |
| HostPorts.ThoseMembers | src/sandboxsh/security.py:259-278 | a mapping is approved iff recorded before or confirmed at a prompt |
| HostPorts.Registry.Claim | src/sandboxsh/security.py:312-347 | refused iff another project owns a wanted port, naming the first such, and then nothing changes; else the project owns exactly the wanted ports and every other owner keeps theirs |
| HostPorts.Registry.Release | src/sandboxsh/security.py:350-359 | the project owns no port, every other owner keeps theirs |
| PublishHelper.GlobbedExactly | install.sh:252-258 | the unit glob of an instance matches its own units and those of instances whose name goes on with a dash, and no others |
| PublishHelper.BaseNameInjective | install.sh:324-325 | unit names never collide |
| PublishHelper.NeighbourCaught | install.sh:252-257 | two instance names of which one's glob catches the other's unit |
| PublishHelper.Helper.Connect | install.sh:346-362 | a connection starts the proxy of a listening unit from its present file, and changes nothing else |
| PublishHelper.Helper.Clear | install.sh:289-300 | removes whole units of the glob only, and all of them exactly if none of them stops it; those that do are still there; succeeds exactly if, besides, systemd reloads or there was nothing to remove |
| PublishHelper.Helper.Install | install.sh:319-366 | writes the files of every mapping up to a bad port, and marks exactly those whose content changed |
| PublishHelper.Helper.Withdraw | install.sh:368-380 | removes exactly the unwanted units of the glob |
| PublishHelper.Helper.Start | install.sh:386-397 | starts what is down, restarts what changed, leaves the rest alone, and stops at the first refusal |
| PublishHelper.Helper.Sync | install.sh:304-403 | the whole verb: which outcome, and for each the exact files; each listener and proxy kept or renewed, other instances' units untouched |
| PublishHelper.UnchangedIsUntouched | install.sh:266-279 | a listening port is left exactly as it was iff both its files were |
| PublishHelper.ServedCurrentExact | install.sh:386-403 | after a whole run a port runs from its files iff nothing found unchanged was running from older ones |
| PublishHelper.RetryLeavesStaleListener | install.sh:386-397 | a run that stops half-way and a retry that leave a listener at the old address |
| PortCommands.Host.Publish | src/sandboxsh/cli.py:187-220 | which outcome the setting, the approvals and the registry give, and for each the exact registry and units: published means owned, a socket on each host port that leads to its guest port at these addresses, and no other unit; with nothing to publish the ports are released iff the removal went through or there is no helper |
| PortCommands.Host.Down | src/sandboxsh/cli.py:239-244 | keeps the ports, and withdraws the listeners exactly when the helper is there, is called, and is not cut short |
| PortCommands.Host.Destroy | src/sandboxsh/cli.py:352-368 | releases the ports in any case; nothing is stray afterwards exactly when the helper removed every unit or the instance had none |
| PortCommands.DestroyLeavesOrphan | src/sandboxsh/cli.py:365-366 | a destroyed project whose listener is still there, on a port that nobody owns |
| PortCommands.Host.Unpublish | src/sandboxsh/cli.py:479-490 | under the same condition, and only then, withdraws the listeners and releases the ports |
| PortCommands.Host.Do | src/sandboxsh/cli.py:187-244 | each verb does what is said of its own: up publishes, down keeps the ports, destroy releases them in any case and unpublish iff the listeners went; a command that settles leaves its project sound, and one that cannot have stranded anything keeps it so |
| PortCommands.ClaimedSoundExact | src/sandboxsh/cli.py:210-215 | when publishing stops after the claim, no listener is stray iff none was on a port no longer approved |
| PortCommands.BystanderStaysSound | src/sandboxsh/cli.py:187-220 | no command makes another project's listeners stray |
| PortCommands.BystanderUntouched | install.sh:252-257 | nor touches them, unless that instance's name goes on with a dash |
| PortCommands.OneListenerPerPort | src/sandboxsh/security.py:312-318 | a host port has at most one listener among projects that are not stray |
| PortCommands.Host.Lifetime | src/sandboxsh/cli.py:187-244 | over any commands of any projects, every unit is on a port its project owns, one per port, for every project but those whose last command that mattered met a setting in which it may release ports and leave listeners; and, of these, but those that did |
| PortCommands.StraysAreTroubled | src/sandboxsh/cli.py:187-244 | only a destroy without a working helper, an up that claims ports and cannot serve them, or an up with nothing to publish and no helper makes its project stray; a down, unpublish or destroy that goes through ends that |
| PortCommands.DroppedPortKeepsOldListener | src/sandboxsh/cli.py:210-213 | a dropped port, a guest without an address, and a second project: the second owns the port, the listener still leads to the first |

## Left out

- Host.Incus.Apply: attaching the ACL is one command, where the source overrides the device and falls back to setting its properties one by one.
- Host.Incus.Publish: of the image's properties only the build key is modelled; source, stage names and disk size follow from it and the plan.
- Host.Incus.Settle: a wall clock that is set back between commands does not appear.
- ImageBuilder.Builder.StartWorker: waiting for cloud-init may fail, which the source ignores; that cloud-init then takes away what has been pinned does not appear.
- ImageBuilder.Builder.Run: says nothing of workers when forced deletions fail, which the source does not notice.
- CacheHistory.Lifetime: in a pause only time, project VMs and kept workers change; images and the manifest that are edited by hand meanwhile do not appear.
- PublishHelper.Helper.Clear: a socket that systemd does not stop, which the source ignores before it deletes the unit's files, does not appear; its listener would outlive a removal that reports success.
- PublishHelper.Helper.Withdraw: the same.
- PublishHelper.Helper.Sync: a kill between writing the unit files and reloading systemd, and a reload that fails there, are not modelled; the two files of a unit count as written together.
- Binding of sockets to addresses: a socket that cannot bind is one of those that the system refuses to start (`refused`).
- GuestWait.WaitForGuestCommand: every probe keeps to its own timeout and sleeping is exact, so neither the rounding of clocks nor a late scheduler appears.
- The order of sorted sets and maps (deletions, removals, rules, pins): the model takes an arbitrary order and proves its results for each; only the mount rows and the port list, where the order is the point, are sorted.
- SHA-256 and its truncation to 16 digits: keys are terms, and their text is treated for a collision-free hash.
- Running Incus, sudo, systemctl, tailscale and git, parsing their output, and resolving names: abstract commands that succeed or fail, or inputs.
- Reading and writing of JSON files, temporary files and the checks of their format: the manifest, the approvals and the registry are their contents. A manifest that cannot be read is not part of this model.
- Loading of stage scripts and cloud-init contracts from disk, and sorting them: stage lists are inputs.
- Age warnings, plan and status texts, elapsed times, progress lines and error wording.
- Creating, starting and upgrading project VMs, agent credentials, skills, and everything inside the guest but the stages' effect on an instance's history.
- Path and address safety checks (`acceptable` in `AclPolicy` stands for the destination check), size and version parsing, name sanitising, choice of a guest's address: each settled by reading one function.
- Revoking approvals, and approvals of mounts and endpoints: the same ledger, with nothing that spans operations.
