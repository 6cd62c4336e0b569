/** Theorems over several builds and prunes: the incremental build is the from-scratch build,
    builds converge and resume, pruning costs the next build nothing, content stays fresh. */
module CacheHistory {
  import opened Prelude
  import opened StageKeys
  import opened History
  import opened Host
  import opened BuildPlan
  import opened CacheInvariant
  import opened RunOutcomes
  import opened ActorSteps
  import opened ImageBuilder
  import opened BuildCommands

  // ---- refinement ---------------------------------------------------------------------------------

  /** The alias carries the image a from-scratch build with these inputs would publish. */
  ghost predicate PublishedFromScratch(w: World, alias: string, inputs: BuildInputs) {
    && alias in w.images && |inputs.stages| > 0
    && w.images[alias] == Image(Some(KeyAt(inputs, |inputs.stages| - 1)), FromScratch(inputs, |inputs.stages|))
  }

  /** Whatever was in the cache, a successful build publishes exactly what building every stage
      from the pinned source would, and a build that declares itself a no-op finds exactly that
      already published. */
  lemma BuildRefinesFromScratch(w0: World, w: World, settings: Settings, req: Request, r: BuildResult)
    requires Safe(w0) && BuildEffect(w0, w, settings, req, r)
    requires r.NothingToDo? || (r.Ran? && r.report.Finished? && req.publish)
    ensures PublishedFromScratch(w, req.alias, r.plan.inputs)
    ensures r.plan.inputs == InputsFor(settings, w.manifest, r.plan.pin)
  {
    KeyDenotesFromScratch(r.plan.inputs, |r.plan.inputs.stages| - 1);
  }

  /** The manifest that a build saves: the generation that was asked for or was there, one more with
      `--refresh`; one more for the stage of `--refresh-from`; and the pin of the source. */
  ghost predicate Bumps(m: Manifest, req: Request, m': Manifest, pin: Pin) {
    && m'.generation == (if req.generation.Some? then req.generation.value else m.generation)
                        + (if req.refresh then 1 else 0)
    && (forall stage ::
          (if stage in m'.stageGenerations then m'.stageGenerations[stage] else 0)
          == (if stage in m.stageGenerations then m.stageGenerations[stage] else 0)
             + if req.refreshFrom == Some(stage) then 1 else 0)
    && req.source in m'.sources && m'.sources[req.source] == pin
    && (req.source in m.sources && !req.refresh ==> pin == m.sources[req.source])
    && (forall source :: source != req.source ==> (source in m'.sources <==> source in m.sources))
    && (forall source :: source != req.source && source in m.sources ==> m'.sources[source] == m.sources[source])
  }

  /** The image holds the pinned source and, on it, every stage of the settings, once and in order, each with
      its own script, arguments and files, behind the allowlist, at the generations of the manifest. */
  ghost predicate RunsAllStages(content: Content, settings: Settings, m: Manifest, pin: Pin) {
    && content.source == pin.fingerprint && content.intact && |content.execs| == |settings.stages|
    && forall i :: 0 <= i < |settings.stages| ==>
         RunsStage(content.execs[i], settings.stages[i], settings.uid, settings.gid, settings.helpers,
                   settings.allow, m.generation, m.stageGenerations)
  }

  /** The same, in terms of the settings, the request and the manifest before. */
  lemma BuildRunsAllStages(w0: World, w: World, settings: Settings, req: Request, r: BuildResult)
    requires Safe(w0) && settings.Ok() && BuildEffect(w0, w, settings, req, r)
    requires r.NothingToDo? || (r.Ran? && r.report.Finished? && req.publish)
    ensures req.alias in w.images && RunsAllStages(w.images[req.alias].content, settings, w.manifest, r.plan.pin)
    ensures Bumps(w0.manifest, req, w.manifest, r.plan.pin)
  {
    BuildRefinesFromScratch(w0, w, settings, req, r);
    SavedManifest(w0, w, settings, req, r);
    hide BuildEffect, Safe;
    forall i | 0 <= i < |settings.stages|
      ensures RunsStage(w.images[req.alias].content.execs[i], settings.stages[i], settings.uid, settings.gid,
                        settings.helpers, settings.allow, w.manifest.generation, w.manifest.stageGenerations)
    {
      FromScratchRuns(r.plan.inputs, i);
    }
  }

  lemma SavedManifest(w0: World, w: World, settings: Settings, req: Request, r: BuildResult)
    requires BuildEffect(w0, w, settings, req, r)
    requires r.NothingToDo? || (r.Ran? && r.report.Finished?)
    ensures Bumps(w0.manifest, req, w.manifest, r.plan.pin)
  {
    hide PlanOf, Loaded, KeyAt, Built, AclOutcome, StrandedAfter;
  }

  /** When a build has nothing to do: exactly when the cache is in use and the image under the alias
      carries the key that is asked for; and what `--dry-run` and refusals leave alone. */
  lemma NothingToDoExact(w0: World, w: World, settings: Settings, req: Request, r: BuildResult)
    requires BuildEffect(w0, w, settings, req, r) && !r.NotPlanned?
    ensures r.plan.WellFormed() && |settings.stages| > 0
    ensures r.DryRun? <==> req.dryRun
    ensures r.DryRun? || r.NotPrimed? || (r.Ran? && RefusedAsStale(r.report)) ==> w == w0
    ensures !req.dryRun ==>
              (r.NothingToDo? || r.NotSaved?
               <==> && !req.noCache && req.alias in w0.images
                    && w0.images[req.alias].key
                       == Some(KeyAt(InputsFor(settings, Bumped(w0.manifest, req), r.plan.pin), |settings.stages| - 1)))
  {
    hide KeyAt, AclOutcome, StrandedAfter, Built, StepsFor, ListingOf;
    assert Planned(w0.manifest, settings, req, r.plan);
  }

  /** The deepest entry that the plan reuses was stamped longer than `age` ago. */
  ghost predicate DeepestOlderThan(w: World, plan: Plan, age: int) {
    var d := plan.FirstBuild();
    && 0 < d <= |plan.inputs.stages| && Cached(w, KeyAt(plan.inputs, d - 1))
    && var entry := w.instances[CacheName(KeyAt(plan.inputs, d - 1))];
       entry.stamps.Some? && w.now - entry.stamps.value.created > age
  }

  lemma CeilingInMicroseconds(days: nat)
    ensures CeilingOf(days) == 3 * days * 24 * 60 * 60 * 1000000 && CeilingOf(days) >= 0
  {
  }

  lemma StaleIsOlder(w: World, plan: Plan)
    requires PlanOf(w, plan) && !plan.IsNoop() && plan.now == w.now && plan.Ceiling() >= 0
    ensures plan.Stale() <==> DeepestOlderThan(w, plan, plan.Ceiling())
  {
    hide KeyAt, StepsFor, ListingOf, Loaded, AllCached, StepKeys;
    HitsAreEntries(w, plan, plan.FirstBuild());
    FirstBuildIsHitPrefix(plan);
  }

  /** When a run refuses: exactly when nobody allowed it, it would reuse something, and its deepest entry
      was stamped more than three times the configured number of days before. */
  lemma RefusesExactly(w0: World, w: World, settings: Settings, req: Request, r: BuildResult)
    requires BuildEffect(w0, w, settings, req, r) && r.Ran?
    ensures RefusedAsStale(r.report) <==>
              && !req.allowStale && !req.refresh
              && DeepestOlderThan(w0, r.plan, 3 * settings.maxAgeDays * 24 * 60 * 60 * 1000000)
  {
    RefusalIsStale(w0, w, settings, req, r);
    hide *;
    RanPlan(w0, w, settings, req, r);
    CeilingInMicroseconds(settings.maxAgeDays);
    StaleIsOlder(w0, r.plan);
  }

  lemma RefusalIsStale(w0: World, w: World, settings: Settings, req: Request, r: BuildResult)
    requires BuildEffect(w0, w, settings, req, r) && r.Ran?
    ensures RefusedAsStale(r.report) <==> r.plan.Stale() && !(req.allowStale || req.refresh)
  {
    hide CacheOutcome, AclOutcome, StrandedAfter, PlanOf, Planned;
  }

  // ---- between two commands ------------------------------------------------------------------------

  /** While no build and no prune is at work, time passes; project VMs come, go and change; and the owner
      may delete a worker that was kept for inspection. */
  ghost predicate Passed(w: World, w': World) {
    && SameHost(w, w')
    && (forall n: Name :: n.CacheName? ==> (n in w'.instances <==> n in w.instances))
    && (forall n: Name :: n.WorkerName? && n in w'.instances ==> n in w.instances)
    && (forall n: Name :: !n.OtherName? && n in w'.instances ==> w'.instances[n] == w.instances[n])
  }

  /** A plan for a later time is a plan for now: whatever is said of the next plan holds whenever it is
      made. */
  lemma PlansOutlastPause(w: World, w': World, plan: Plan)
    requires Passed(w, w')
    ensures PlanOf(w', plan) <==> PlanOf(w, plan)
  {
    hide StepsFor, StepKeys;
    forall entries ensures ListingOf(w', entries) <==> ListingOf(w, entries) {
      assert forall key :: Cached(w', key) <==> Cached(w, key);
    }
  }

  // ---- convergence and resumption ---------------------------------------------------------------------

  /** A request with no refreshing, no rollback, and the cache in use. */
  predicate Plain(req: Request) {
    !req.refresh && req.refreshFrom.None? && req.generation.None? && !req.noCache
  }

  lemma SameInputsAgain(m: Manifest, settings: Settings, req: Request, plan: Plan, again: Request, next: Plan)
    requires Planned(m, settings, req, plan) && Planned(plan.manifest, settings, again, next)
    requires Plain(again) && again.source == req.source
    ensures next.inputs == plan.inputs && next.manifest == plan.manifest
    ensures next.alias == again.alias && !next.noCache
  {
  }

  /** After a build that published, or found nothing to do, planning the same again is a no-op. */
  lemma BuildConverges(w0: World, w: World, settings: Settings, req: Request, r: BuildResult, again: Request,
                       next: Plan)
    requires BuildEffect(w0, w, settings, req, r)
    requires r.NothingToDo? || (r.Ran? && r.report.Finished? && req.publish)
    requires Plain(again) && again.source == req.source && again.alias == req.alias
    requires PlanOf(w, next) && Planned(w.manifest, settings, again, next)
    ensures next.IsNoop()
  {
    SameInputsAgain(w0.manifest, settings, req, r.plan, again, next);
  }

  /** The number of leading hits is the number of leading stages in the cache. */
  lemma HitsAre(w: World, plan: Plan, n: nat)
    requires PlanOf(w, plan) && !plan.IsNoop() && !plan.noCache && n <= |plan.steps|
    requires forall i :: 0 <= i < n ==> Cached(w, KeyAt(plan.inputs, i))
    requires n < |plan.steps| ==> !Cached(w, KeyAt(plan.inputs, n))
    ensures plan.FirstBuild() == n
  {
    HitsAreEntries(w, plan, plan.FirstBuild());
    if plan.FirstBuild() < |plan.steps| {
      FirstMissNotCached(w, plan);
    }
    if plan.FirstBuild() < n {
      assert false;
    }
  }

  /** Once the cache has grown by the chain's keys from `d` to `j`, the chain is cached up to `j`,
      and exactly so far where nothing lay beyond `d` before. */
  lemma GrownChain(w0: World, w: World, plan: Plan, d: nat, j: nat)
    requires plan.WellFormed() && d <= j <= |plan.steps| && Grown(w0, w, plan, d, j)
    requires d <= |plan.inputs.stages| && forall i :: 0 <= i < d ==> Cached(w0, KeyAt(plan.inputs, i))
    ensures forall i :: 0 <= i < j ==> Cached(w, KeyAt(plan.inputs, i))
    ensures TargetsFree(w0, plan.inputs, d) ==> TargetsFree(w, plan.inputs, j)
  {
    forall i | 0 <= i < j ensures Cached(w, KeyAt(plan.inputs, i)) {
      assert d <= i ==> Between(plan, d, j, KeyAt(plan.inputs, i));
    }
    forall m | j <= m < |plan.inputs.stages| ensures !Between(plan, d, j, KeyAt(plan.inputs, m)) {
      forall i | d <= i < j ensures KeyAt(plan.inputs, i) != KeyAt(plan.inputs, m) {
        ChainKeysDistinct(plan.inputs, plan.inputs, i, m);
      }
    }
  }

  lemma StageErrorStopped(w0: World, w: World, plan: Plan, publish: bool, r: RunReport)
    requires plan.WellFormed() && !plan.IsNoop() && CacheOutcome(w0, w, plan, publish, r)
    requires r.Raised? && r.failure.StageError?
    ensures plan.FirstBuild() + r.rebuilt < |plan.steps| && w.images == w0.images && w.manifest == plan.manifest
    ensures StoppedAt(w0, w, plan, plan.FirstBuild(), plan.FirstBuild() + r.rebuilt, r.failure.result)
  {
    hide StoppedAt, Grown, NoneCached, KeyAt, Loaded, AclLeft, SameKeys;
  }

  lemma AllStagesGrew(w0: World, w: World, plan: Plan, publish: bool, r: RunReport)
    requires plan.WellFormed() && !plan.IsNoop() && CacheOutcome(w0, w, plan, publish, r) && AllStages(r)
    ensures plan.FirstBuild() + r.rebuilt == |plan.steps| && w.manifest == plan.manifest
    ensures Grown(w0, w, plan, plan.FirstBuild(), |plan.steps|)
    ensures !plan.noCache ==> NoneCached(w0, plan, plan.FirstBuild(), |plan.steps|)
    ensures r.Finished? && !publish ==> w.images == w0.images
  {
    hide StoppedAt, Grown, NoneCached, KeyAt, Loaded, AclLeft, SameKeys;
  }

  /** With the same image under the alias as before, a plan with the same inputs is still no no-op. */
  lemma StillNotNoop(w0: World, w: World, plan: Plan, next: Plan)
    requires PlanOf(w0, plan) && !plan.IsNoop() && !plan.noCache && PlanOf(w, next)
    requires next.inputs == plan.inputs && next.alias == plan.alias && w.images == w0.images
    ensures !next.IsNoop() && next.WellFormed() && |next.steps| == |plan.steps|
  {
  }

  /** Every stage after `d` and before `n` has an entry. */
  ghost predicate CachedAfter(w: World, inputs: BuildInputs, d: int, n: nat)
    requires -1 <= d && n <= |inputs.stages|
  {
    forall i :: d < i < n ==> Cached(w, KeyAt(inputs, i))
  }

  /** The hits reach as far as the entries do. */
  lemma HitsAtLeast(w: World, plan: Plan, n: nat)
    requires PlanOf(w, plan) && !plan.IsNoop() && !plan.noCache && n <= |plan.steps|
    ensures n <= |plan.inputs.stages| && (plan.FirstBuild() >= n <==> CachedAfter(w, plan.inputs, -1, n))
  {
    HitsAreEntries(w, plan, plan.FirstBuild());
    if plan.FirstBuild() < n {
      FirstMissNotCached(w, plan);
    }
  }

  /** Where a failed stage leaves the chain: everything before it has its entry, everything after it is
      as it was, and so is its own entry unless its commit went wrong. */
  lemma StoppedEntries(w0: World, w: World, plan: Plan, d: nat, j: nat, result: StageResult)
    requires plan.WellFormed() && d <= j < |plan.steps| && StoppedAt(w0, w, plan, d, j, result)
    requires d <= |plan.inputs.stages| && CachedAfter(w0, plan.inputs, -1, d)
    ensures CachedAfter(w, plan.inputs, -1, j)
    ensures forall i :: j < i < |plan.inputs.stages| ==>
              (Cached(w, KeyAt(plan.inputs, i)) <==> Cached(w0, KeyAt(plan.inputs, i)))
    ensures !result.CommitFailed? ==> (Cached(w, KeyAt(plan.inputs, j)) <==> Cached(w0, KeyAt(plan.inputs, j)))
  {
    hide KeyAt;
    forall i | 0 <= i < |plan.inputs.stages| && i != j
      ensures KeyAt(plan.inputs, i) != KeyAt(plan.inputs, j)
      ensures Between(plan, d, j, KeyAt(plan.inputs, i)) <==> d <= i < j
      ensures Between(plan, d, j + 1, KeyAt(plan.inputs, i)) <==> d <= i < j
    {
      ChainKeysDistinct(plan.inputs, plan.inputs, i, j);
      InBetween(plan, d, j, i);
      InBetween(plan, d, j + 1, i);
    }
    InBetween(plan, d, j, j);
  }

  lemma InBetween(plan: Plan, d: nat, j: nat, i: nat)
    requires j <= |plan.inputs.stages| && i < |plan.inputs.stages|
    ensures Between(plan, d, j, KeyAt(plan.inputs, i)) <==> d <= i < j
  {
    hide KeyAt;
    forall m | d <= m < j && m != i ensures KeyAt(plan.inputs, m) != KeyAt(plan.inputs, i) {
      ChainKeysDistinct(plan.inputs, plan.inputs, m, i);
    }
  }

  /** Where the next build starts after stage `j` has failed, whatever was cached and whether the cache
      was in use: never before `j`, and at `j` exactly when `j` has no entry, which is so exactly when
      it had none before unless its commit went wrong; beyond `j` as far as there were entries. A
      `--no-cache` build that fails leaves the old entries from `j` on, and these are hits. */
  lemma ResumesExactly(w0: World, w: World, settings: Settings, req: Request, r: BuildResult, again: Request,
                       next: Plan)
    requires BuildEffect(w0, w, settings, req, r)
    requires r.Ran? && r.report.Raised? && r.report.failure.StageError?
    requires Plain(again) && again.source == req.source && again.alias == req.alias
    requires PlanOf(w, next) && Planned(w.manifest, settings, again, next)
    ensures next.inputs == r.plan.inputs && next.WellFormed() && |next.steps| == |next.inputs.stages|
    ensures next.IsNoop() <==> PublishedKey(w0, req.alias) == Some(next.BuildKey())
    ensures var j := r.plan.FirstBuild() + r.report.rebuilt;
            && j < |next.steps|
            && (!next.IsNoop() ==>
                 && next.FirstBuild() >= j
                 && (next.FirstBuild() == j <==> !Cached(w, KeyAt(next.inputs, j)))
                 && (!r.report.failure.result.CommitFailed? ==>
                       (next.FirstBuild() == j <==> !Cached(w0, KeyAt(next.inputs, j))))
                 && forall n :: j < n <= |next.steps| ==>
                      (next.FirstBuild() >= n <==>
                         Cached(w, KeyAt(next.inputs, j)) && CachedAfter(w0, next.inputs, j, n)))
  {
    hide *;
    var plan, d := r.plan, r.plan.FirstBuild();
    var j := d + r.report.rebuilt;
    RanPlan(w0, w, settings, req, r);
    StageErrorStopped(w0, w, plan, req.publish, r.report);
    SameInputsAgain(w0.manifest, settings, req, plan, again, next);
    NoopExactly(w, next);
    SamePublished(w0, w, req.alias);
    HitsAreEntries(w0, plan, d);
    CachedAfterIs(w0, plan.inputs, -1, d);
    StoppedEntries(w0, w, plan, d, j, r.report.failure.result);
    if !next.IsNoop() {
      HitsAtLeast(w, next, j);
      HitsAtLeast(w, next, j + 1);
      forall n | j < n <= |next.steps|
        ensures next.FirstBuild() >= n <==> Cached(w, KeyAt(plan.inputs, j)) && CachedAfter(w0, plan.inputs, j, n)
      {
        HitsAtLeast(w, next, n);
        CachedThrough(w0, w, plan.inputs, j, n);
      }
      CachedThrough(w0, w, plan.inputs, j, j + 1);
    }
  }

  lemma CachedAfterIs(w: World, inputs: BuildInputs, d: int, n: nat)
    requires -1 <= d && n <= |inputs.stages| && forall i :: d < i < n ==> Cached(w, KeyAt(inputs, i))
    ensures CachedAfter(w, inputs, d, n)
  {
  }

  lemma CachedThrough(w0: World, w: World, inputs: BuildInputs, j: nat, n: nat)
    requires j < n <= |inputs.stages| && CachedAfter(w, inputs, -1, j)
    requires forall i :: j < i < |inputs.stages| ==> (Cached(w, KeyAt(inputs, i)) <==> Cached(w0, KeyAt(inputs, i)))
    ensures CachedAfter(w, inputs, -1, n) <==> Cached(w, KeyAt(inputs, j)) && CachedAfter(w0, inputs, j, n)
    ensures CachedAfter(w0, inputs, j, j + 1)
  {
    hide KeyAt, Cached;
  }

  lemma SamePublished(w: World, w': World, alias: string)
    requires w'.images == w.images
    ensures PublishedKey(w', alias) == PublishedKey(w, alias)
  {
  }

  lemma NoopExactly(w: World, plan: Plan)
    requires PlanOf(w, plan) && !plan.noCache
    ensures plan.WellFormed() && |plan.steps| == |plan.inputs.stages|
    ensures plan.IsNoop() <==> PublishedKey(w, plan.alias) == Some(plan.BuildKey())
  {
  }

  lemma StoppedChain(w0: World, w: World, plan: Plan, d: nat, j: nat, result: StageResult)
    requires plan.WellFormed() && d <= j < |plan.steps| && StoppedAt(w0, w, plan, d, j, result) && !plan.noCache
    requires d <= |plan.inputs.stages| && forall i :: 0 <= i < d ==> Cached(w0, KeyAt(plan.inputs, i))
    requires TargetsFree(w0, plan.inputs, d)
    ensures forall i :: 0 <= i < j ==> Cached(w, KeyAt(plan.inputs, i))
    ensures TargetsFree(w, plan.inputs, j + 1)
    ensures !result.CommitFailed? ==> !Cached(w, KeyAt(plan.inputs, j))
  {
    hide Grown, KeyAt;
    if Grown(w0, w, plan, d, j) {
      GrownChain(w0, w, plan, d, j);
    } else {
      GrownChain(w0, w, plan, d, j + 1);
    }
  }

  /** Where the next build starts after a stage has failed: at that stage, unless its commit worked
      in spite of its failure. Every stage that had no entry gets it from exactly one of the two
      builds; but a commit that failed without an effect has left the executed stage in its worker,
      and the next build executes it again. */
  lemma BuildResumes(w0: World, w: World, settings: Settings, req: Request, r: BuildResult, again: Request, next: Plan)
    requires BuildEffect(w0, w, settings, req, r) && ParentClosed(w0) && !req.noCache
    requires r.Ran? && r.report.Raised? && r.report.failure.StageError?
    requires Plain(again) && again.source == req.source && again.alias == req.alias
    requires PlanOf(w, next) && Planned(w.manifest, settings, again, next)
    ensures var j := r.plan.FirstBuild() + r.report.rebuilt;
            && j < |next.steps| == |next.inputs.stages| && !next.IsNoop() && next.inputs == r.plan.inputs
            && next.FirstBuild() == (if Cached(w, KeyAt(next.inputs, j)) then j + 1 else j)
            && (!r.report.failure.result.CommitFailed? ==> next.FirstBuild() == j)
            && (r.report.failure.result.CommitFailed? && next.FirstBuild() == j ==> Stranded(w, KeyAt(next.inputs, j)))
    ensures forall i :: 0 <= i < |next.inputs.stages| && !Cached(w0, KeyAt(next.inputs, i)) ==>
              (Cached(w, KeyAt(next.inputs, i)) <==> i < next.FirstBuild())
  {
    hide *;
    var plan, d := r.plan, r.plan.FirstBuild();
    var j := d + r.report.rebuilt;
    RanPlan(w0, w, settings, req, r);
    StageErrorStopped(w0, w, plan, req.publish, r.report);
    SameInputsAgain(w0.manifest, settings, req, plan, again, next);
    StillNotNoop(w0, w, plan, next);
    HitsAreEntries(w0, plan, d);
    RenameTargetsFree(w0, plan);
    StoppedChain(w0, w, plan, d, j, r.report.failure.result);
    TargetsAre(w, plan.inputs, j + 1);
    HitsAre(w, next, if Cached(w, KeyAt(plan.inputs, j)) then j + 1 else j);
    StrandedReport(w, plan, r.report);
  }

  lemma TargetsAre(w: World, inputs: BuildInputs, j: nat)
    requires TargetsFree(w, inputs, j)
    ensures forall m :: j <= m < |inputs.stages| ==> !Cached(w, KeyAt(inputs, m))
  {
  }

  lemma StrandedReport(w: World, plan: Plan, r: RunReport)
    requires plan.WellFormed() && r.Raised? && r.failure.StageError?
        && StrandedAfter(w, plan, Some(r.failure), r.rebuilt)
    ensures plan.FirstBuild() + r.rebuilt < |plan.inputs.stages|
    ensures var key := KeyAt(plan.inputs, plan.FirstBuild() + r.rebuilt);
            r.failure.result.CommitFailed? && !Cached(w, key) ==> Stranded(w, key)
  {
  }

  /** The entries of the first `n` stages. */
  function FullCache(inputs: BuildInputs, n: nat): map<Name, Instance>
    requires n <= |inputs.stages|
  {
    if n == 0 then map[]
    else FullCache(inputs, n - 1)[CacheName(KeyAt(inputs, n - 1)) := EntryInstance(KeyAt(inputs, n - 1), 0)]
  }

  ghost predicate Among(inputs: BuildInputs, n: nat, key: Key)
    requires n <= |inputs.stages|
  {
    exists i :: 0 <= i < n && key == KeyAt(inputs, i)
  }

  lemma OneMoreAmong(inputs: BuildInputs, n: nat, key: Key)
    requires n < |inputs.stages|
    ensures Among(inputs, n + 1, key) <==> Among(inputs, n, key) || key == KeyAt(inputs, n)
  {
    hide KeyAt;
    if Among(inputs, n, key) {
      var i :| 0 <= i < n && key == KeyAt(inputs, i);
      assert i < n + 1;
    }
  }

  lemma {:induction false} FullCacheHas(inputs: BuildInputs, n: nat)
    requires n <= |inputs.stages|
    ensures forall name :: name in FullCache(inputs, n) ==> name.CacheName?
    ensures forall key :: CacheName(key) in FullCache(inputs, n) <==> Among(inputs, n, key)
    ensures forall i :: 0 <= i < n ==>
              && CacheName(KeyAt(inputs, i)) in FullCache(inputs, n)
              && FullCache(inputs, n)[CacheName(KeyAt(inputs, i))] == EntryInstance(KeyAt(inputs, i), 0)
  {
    hide KeyAt, EntryInstance;
    if n > 0 {
      FullCacheHas(inputs, n - 1);
      hide Among;
      forall key ensures CacheName(key) in FullCache(inputs, n) <==> Among(inputs, n, key) {
        OneMoreAmong(inputs, n - 1, key);
      }
    }
  }

  function FullListing(inputs: BuildInputs): seq<CacheEntry> {
    seq(|inputs.stages|, i requires 0 <= i < |inputs.stages| =>
      CacheEntry(StampsFor(KeyAt(inputs, i), 0), CacheName(KeyAt(inputs, i))))
  }

  lemma FullListingDistinct(inputs: BuildInputs)
    ensures Distinct(FullListing(inputs))
    ensures forall i :: 0 <= i < |inputs.stages| ==> FullListing(inputs)[i].stamps.key == KeyAt(inputs, i)
  {
    hide KeyAt;
    forall i, j | 0 <= i < j < |inputs.stages| ensures KeyAt(inputs, i) != KeyAt(inputs, j) {
      ChainKeysDistinct(inputs, inputs, i, j);
    }
  }

  lemma FullListingIs(inputs: BuildInputs, w: World)
    requires w.instances == FullCache(inputs, |inputs.stages|)
    ensures ListingOf(w, FullListing(inputs))
  {
    hide KeyAt, Distinct, FullCache, StampsFor;
    var n, entries := |inputs.stages|, FullListing(inputs);
    FullCacheHas(inputs, n);
    FullListingDistinct(inputs);
    forall key | Cached(w, key) ensures HasEntry(entries, key) {
      var i :| 0 <= i < n && key == KeyAt(inputs, i);
      LookupMember(entries, entries[i]);
    }
  }

  /** The plan of a `--no-cache` build over a full cache. */
  function RebuildPlan(settings: Settings, w: World, pin: Pin, req: Request): Plan {
    var inputs := InputsFor(settings, w.manifest, pin);
    var n := |settings.stages|;
    Plan(req.alias, req.source, pin, inputs,
         seq(n, i requires 0 <= i < n => PlanStep(StageKeyAt(inputs, i), false, NoCacheFlag, None)),
         PublishedKey(w, req.alias), w.manifest, true, w.now, settings.maxAgeDays, false, FullListing(inputs))
  }

  lemma RebuildPlanIs(settings: Settings, w: World, pin: Pin, req: Request)
    requires settings.Ok() && req.noCache && !req.refresh && req.generation.None? && req.refreshFrom.None?
    requires req.source in w.manifest.sources && w.manifest.sources[req.source] == pin
    requires ListingOf(w, FullListing(InputsFor(settings, w.manifest, pin)))
    ensures var plan := RebuildPlan(settings, w, pin, req);
            plan.WellFormed() && PlanOf(w, plan) && !plan.IsNoop() && Planned(w.manifest, settings, req, plan)
            && plan.FirstBuild() == 0 && |plan.steps| > 0
            && plan.now == w.now && plan.manifest == w.manifest && plan.noCache
  {
    hide ListingOf, KeyAt;
    var plan := RebuildPlan(settings, w, pin, req);
    var keys := seq(|settings.stages|, i requires 0 <= i < |settings.stages| => StageKeyAt(plan.inputs, i));
    PlanMade(w, plan, keys);
  }

  /** A `--no-cache` build whose first stage fails over a full cache: the next build finds every stage
      cached, the failed one and those after it included. */
  lemma FailedRebuildKeepsHits(settings: Settings, pin: Pin, m: Manifest, req: Request, again: Request)
    returns (w: World, r: BuildResult)
    requires settings.Ok() && req.noCache && !req.refresh && req.generation.None? && req.refreshFrom.None? && !req.keep
    requires !req.dryRun
    requires req.source in m.sources && m.sources[req.source] == pin
    requires Plain(again) && again.source == req.source && again.alias == req.alias
    ensures Safe(w) && ParentClosed(w) && w.manifest == m && BuildEffect(w, w, settings, req, r)
    ensures r.Ran? && r.report.Raised? && r.report.failure == StageError(StageFailed(None)) && r.report.rebuilt == 0
    ensures r.plan.FirstBuild() == 0
    ensures forall next :: PlanOf(w, next) && Planned(m, settings, again, next) ==>
              !next.IsNoop() && 0 < next.FirstBuild() == |next.steps|
  {
    hide *;
    var inputs, n := InputsFor(settings, m, pin), |settings.stages|;
    InputsAre(settings, m, pin);
    w := World(FullCache(inputs, n), None, map[], m, 0);
    FullCacheIsSafe(w, inputs);
    FullListingIs(inputs, w);
    RebuildPlanIs(settings, w, pin, req);
    r := Ran(RebuildPlan(settings, w, pin, req), Raised(StageError(StageFailed(None)), true, None, false, false, 0));
    FirstStageFailed(w, settings, req, r.plan);
    CachedAfterIs(w, inputs, -1, n);
    AgainOverFullCache(w, settings, pin, again);
  }

  lemma InputsAre(settings: Settings, m: Manifest, pin: Pin)
    requires settings.Ok()
    ensures var inputs := InputsFor(settings, m, pin);
            inputs.stages == settings.stages && Loaded(inputs.stages) && |inputs.stages| > 0
  {
  }

  lemma AgainOverFullCache(w: World, settings: Settings, pin: Pin, again: Request)
    requires Plain(again) && w.images == map[] && settings.Ok()
    requires again.source in w.manifest.sources && w.manifest.sources[again.source] == pin
    requires |InputsFor(settings, w.manifest, pin).stages| == |settings.stages|
    requires CachedAfter(w, InputsFor(settings, w.manifest, pin), -1, |settings.stages|)
    ensures forall next :: PlanOf(w, next) && Planned(w.manifest, settings, again, next) ==>
              !next.IsNoop() && 0 < next.FirstBuild() == |next.steps|
  {
    hide CachedAfter, KeyAt, StepsFor, ListingOf;
    forall next | PlanOf(w, next) && Planned(w.manifest, settings, again, next)
      ensures !next.IsNoop() && 0 < next.FirstBuild() == |next.steps|
    {
      assert next.inputs == InputsFor(settings, w.manifest, pin);
      HitsAtLeast(w, next, |settings.stages|);
    }
  }

  lemma FirstStageFailed(w: World, settings: Settings, req: Request, plan: Plan)
    requires plan.WellFormed() && PlanOf(w, plan) && !plan.IsNoop() && Planned(w.manifest, settings, req, plan)
    requires plan.FirstBuild() == 0 && plan.now == w.now && plan.manifest == w.manifest && plan.noCache
    requires w.acl.None? && !req.keep && !req.dryRun && |plan.steps| > 0
    ensures BuildEffect(w, w, settings, req,
              Ran(plan, Raised(StageError(StageFailed(None)), true, None, false, false, 0)))
  {
    hide PlanOf, Planned, KeyAt, Loaded;
    assert forall k :: !Between(plan, 0, 0, k);
    assert BuildOutcome(w, w, plan, Some(StageFailed(None)), 0);
  }

  lemma FullCacheEntry(w: World, inputs: BuildInputs, i: nat)
    requires Loaded(inputs.stages) && w.instances == FullCache(inputs, |inputs.stages|) && i < |inputs.stages|
    ensures Cached(w, KeyAt(inputs, i))
    ensures IsEntry(KeyAt(inputs, i), w.instances[CacheName(KeyAt(inputs, i))])
  {
    hide FullCache;
    FullCacheHas(inputs, |inputs.stages|);
    KeyAtShaped(inputs, i);
  }

  lemma FullCacheIsSafe(w: World, inputs: BuildInputs)
    requires Loaded(inputs.stages) && w.instances == FullCache(inputs, |inputs.stages|) && w.images == map[]
    ensures Safe(w) && ParentClosed(w)
    ensures forall i :: 0 <= i < |inputs.stages| ==> Cached(w, KeyAt(inputs, i))
  {
    hide KeyAt, IsEntry, FullCache;
    FullCacheHas(inputs, |inputs.stages|);
    forall i | 0 <= i < |inputs.stages|
      ensures Cached(w, KeyAt(inputs, i)) && IsEntry(KeyAt(inputs, i), w.instances[CacheName(KeyAt(inputs, i))])
      ensures var key := KeyAt(inputs, i); key.Link? && key.parent.Link? ==> Cached(w, key.parent)
    {
      FullCacheEntry(w, inputs, i);
      ParentOfKeyAt(inputs, i);
      if i > 0 {
        FullCacheEntry(w, inputs, i - 1);
      }
    }
  }

  lemma ParentOfKeyAt(inputs: BuildInputs, i: nat)
    requires i < |inputs.stages|
    ensures i == 0 ==> KeyAt(inputs, i).parent.Source?
    ensures i > 0 ==> KeyAt(inputs, i).parent == KeyAt(inputs, i - 1)
  {
  }

  /** In a closed cache, and with `--no-cache` in any, no entry is in the way of a build: it gets to its
      end, if every command works, exactly unless what it reuses is too old or an instance that is
      none of the builder's keeps the ACL. */
  lemma ClosedCacheIsClear(w: World, plan: Plan, allowStale: bool)
    requires PlanOf(w, plan) && !plan.IsNoop() && (plan.noCache || ParentClosed(w))
    ensures CanFinish(w, plan, allowStale)
            <==> (plan.Stale() ==> allowStale) && (plan.FirstBuild() < |plan.steps| ==> AclOurs(w))
  {
    hide PlanOf;
    if !plan.noCache {
      RenameTargetsFree(w, plan);
    }
  }

  /** All stages built but nothing published, by choice or by a failed publish: the next build,
      whenever it is started and however it goes, rebuilds no stage, changes no entry and leaves the
      ACL alone. */
  lemma PublishOnlyRetry(w0: World, w: World, settings: Settings, req: Request, r: BuildResult,
                         w1: World, w': World, again: Request, r': BuildResult)
    requires BuildEffect(w0, w, settings, req, r) && Passed(w, w1) && BuildEffect(w1, w', settings, again, r')
    requires r.Ran? && ((r.report.Finished? && !req.publish) || (r.report.Raised? && r.report.failure.PublishError?))
    requires Plain(again) && again.source == req.source && again.alias == req.alias
    ensures w'.acl == w.acl && SameKeys(w1, w') && !r'.NotPrimed?
    ensures r'.Ran? ==> && r'.plan.FirstBuild() == |r'.plan.steps| && r'.report.rebuilt == 0 && !r'.report.policy
  {
    var plan := r.plan;
    assert PlanOf(w0, plan) && plan.WellFormed() && Planned(w0.manifest, settings, req, plan);
    AllStagesGrew(w0, w, plan, req.publish, r.report);
    ChainThere(w0, w, plan);
    if r'.Ran? || r'.NotPrimed? {
      var next := r'.plan;
      assert PlanOf(w1, next) && !next.IsNoop() && Planned(w.manifest, settings, again, next);
      SameInputsAgain(w0.manifest, settings, req, plan, again, next);
      PlansOutlastPause(w, w1, next);
      AllHits(w, plan, next);
      if r'.Ran? {
        NothingToRebuild(w1, w', next, again.publish, again.keep, r'.report);
      }
    }
  }

  lemma ChainThere(w0: World, w: World, plan: Plan)
    requires PlanOf(w0, plan) && !plan.IsNoop() && Grown(w0, w, plan, plan.FirstBuild(), |plan.steps|)
    ensures forall i :: 0 <= i < |plan.inputs.stages| ==> Cached(w, KeyAt(plan.inputs, i))
  {
    hide Grown;
    HitsAreEntries(w0, plan, plan.FirstBuild());
    GrownChain(w0, w, plan, plan.FirstBuild(), |plan.steps|);
  }

  lemma AllHits(w: World, plan: Plan, next: Plan)
    requires PlanOf(w, next) && !next.IsNoop() && !next.noCache && next.inputs == plan.inputs
    requires forall i :: 0 <= i < |plan.inputs.stages| ==> Cached(w, KeyAt(plan.inputs, i))
    ensures next.FirstBuild() == |next.steps|
  {
    HitsAre(w, next, |next.steps|);
  }

  /** A run that finds every stage cached only publishes. */
  lemma NothingToRebuild(w: World, w': World, plan: Plan, publish: bool, keep: bool, r: RunReport)
    requires plan.WellFormed() && !plan.IsNoop() && plan.FirstBuild() == |plan.steps|
    requires CacheOutcome(w, w', plan, publish, r) && AclOutcome(w, w', plan, keep, r)
    ensures r.rebuilt == 0 && !r.policy && w'.acl == w.acl && SameKeys(w, w')
  {
    assert forall k :: !Between(plan, |plan.steps|, |plan.steps|, k);
  }

  // ---- the ACL after a run ----------------------------------------------------------------------------

  /** The report says that something was left on the host. */
  predicate Reported(r: RunReport) {
    r.Raised? && (r.kept.Some? || r.cleanupFailed)
  }

  /** An ACL is there after a run without a word in the report exactly when the run never applied it,
      and it was there before or writing its rules failed. Where a command that reports failure may
      work all the same, it can also be its creation that failed. */
  lemma AclUnreportedExact(w0: World, w: World, plan: Plan, keep: bool, r: RunReport, honest: bool)
    requires plan.WellFormed() && AclOutcome(w0, w, plan, keep, r)
    requires honest && r.Raised? && r.failure.AclFailed? && !r.failure.step.RulesStep? ==> w.acl == w0.acl
    ensures honest ==> (w.acl.Some? && !Reported(r) <==>
                          !r.policy && (w0.acl.Some? || (r.Raised? && r.failure == AclFailed(RulesStep))))
    ensures r.Raised? && r.failure == AclFailed(RulesStep) ==> w.acl.Some? && !Reported(r)
    ensures w.acl.Some? && !Reported(r) ==>
              !r.policy && (w0.acl.Some? || (r.Raised? && r.failure.AclFailed? && !r.failure.step.PolicyStep?))
  {
  }

  /** The two commands that do it: the creation works, the rules are refused. */
  lemma AclAbandoned(w0: World, plan: Plan, publish: bool, keep: bool) returns (w1: World, w2: World)
    requires plan.WellFormed() && !plan.IsNoop() && plan.FirstBuild() < |plan.steps|
    requires w0.acl.None? && w0.manifest == plan.manifest
    ensures AclCreated(w0, w1, true) && RulesPut(w1, w2, plan.inputs.allow, false) && w2.acl == Some([])
    ensures var r := Raised(AclFailed(RulesStep), false, None, false, false, 0);
            CacheOutcome(w0, w2, plan, publish, r) && AclOutcome(w0, w2, plan, keep, r) && !Reported(r)
  {
    w1 := w0.(acl := Some([]));
    w2 := w1;
  }

  // ---- pruning ------------------------------------------------------------------------------------------

  /** Planning for a kept chain finds the same hits before and after a prune, also one that was
      killed on the way. */
  lemma PruneKeepsHits(w0: World, w: World, keep: set<Key>, before: Plan, after: Plan)
    requires PartlyPruned(w0, w, keep) && PlanOf(w0, before) && PlanOf(w, after)
    requires before.inputs == after.inputs && !before.noCache && !after.noCache
    requires !before.IsNoop() && !after.IsNoop()
    requires forall i :: 0 <= i < |before.inputs.stages| ==> KeyAt(before.inputs, i) in keep
    ensures after.FirstBuild() == before.FirstBuild()
  {
    HitsAreEntries(w0, before, before.FirstBuild());
    if before.FirstBuild() < |before.steps| {
      FirstMissNotCached(w0, before);
    }
    HitsAre(w, after, before.FirstBuild());
  }

  /** The chain of any kept generation, with the present pin, lies inside what prune keeps. */
  lemma KeptChainInside(settings: Settings, m: Manifest, pin: Pin, previous: nat, generation: int, i: nat)
    requires KeptGeneration(m.generation, previous, generation) && i < |settings.stages|
    ensures ToKeep(settings, m, pin, previous, KeyAt(ChainInputs(settings, m, pin, generation), i))
  {
    assert OnChain(ChainInputs(settings, m, pin, generation), KeyAt(ChainInputs(settings, m, pin, generation), i));
  }

  /** A completed prune keeps a closed cache closed. */
  lemma PruneKeepsClosed(w0: World, w: World, settings: Settings, pin: Pin, previous: nat, keep: set<Key>)
    requires Pruned(w0, w, keep) && ParentClosed(w0)
    requires forall key :: key in keep <==> ToKeep(settings, w0.manifest, pin, previous, key)
    ensures ParentClosed(w)
  {
    forall key | Cached(w, key) && key.Link? && key.parent.Link? ensures Cached(w, key.parent) {
      ToKeepClosed(settings, w0.manifest, pin, previous, key);
    }
  }

  /** Every entry is deleted before its parent. */
  predicate ChildrenFirst(order: seq<Key>) {
    forall i, j :: 0 <= i < j < |order| && order[j].Link? ==> order[j].parent != order[i]
  }

  ghost predicate KeepsParents(keep: set<Key>) {
    forall key :: key in keep && key.Link? && key.parent.Link? ==> key.parent in keep
  }

  /** Between the first `n` deletions and the others stand a parent and its child. */
  predicate Splits(order: seq<Key>, n: nat)
    requires n <= |order|
  {
    exists i, j :: 0 <= i < n <= j < |order| && order[j].Link? && order[j].parent == order[i]
  }

  /** A prune that is stopped after `n` deletions leaves a closed cache closed exactly when these do not
      separate a parent from its child. */
  lemma CutPruneClosed(w0: World, w: World, keep: set<Key>, order: seq<Key>, n: nat)
    requires ParentClosed(w0) && WellStamped(w0) && OrderCovers(w0, keep, order) && KeepsParents(keep)
    requires n <= |order| && AfterDeleting(w0, w, order, n)
    ensures ParentClosed(w) <==> !Splits(order, n)
  {
    if i, j :| 0 <= i < n <= j < |order| && order[j].Link? && order[j].parent == order[i] {
      assert order[i] in order[..n] && order[i] in order && order[j] in order;
      assert order[j] !in order[..n];
      assert Cached(w, order[j]) && !Cached(w, order[i]) && order[i].Link?;
    } else {
      forall key | Cached(w, key) && key.Link? && key.parent.Link? ensures Cached(w, key.parent) {
        forall i | 0 <= i < n ensures order[i] != key.parent {
          assert order[i] in order;
          if key !in keep {
            var j :| 0 <= j < |order| && order[j] == key;
            assert n <= j;
          }
        }
      }
    }
  }

  /** Wherever a prune is stopped, a closed cache is left closed, exactly when its order deletes
      every entry before its parent. */
  lemma PartialPruneClosed(w0: World, keep: set<Key>, order: seq<Key>)
    requires ParentClosed(w0) && WellStamped(w0) && OrderCovers(w0, keep, order) && KeepsParents(keep)
    ensures (forall n, w :: 0 <= n <= |order| && AfterDeleting(w0, w, order, n) ==> ParentClosed(w))
            <==> ChildrenFirst(order)
  {
    if ChildrenFirst(order) {
      forall n, w | 0 <= n <= |order| && AfterDeleting(w0, w, order, n) ensures ParentClosed(w) {
        CutPruneClosed(w0, w, keep, order, n);
      }
    } else {
      var i, j :| 0 <= i < j < |order| && order[j].Link? && order[j].parent == order[i];
      WithoutIsAfter(w0, order, i + 1);
      CutPruneClosed(w0, Without(w0, order, i + 1), keep, order, i + 1);
      assert Splits(order, i + 1);
    }
  }

  /** The host after the first `n` deletions. */
  function Without(w: World, order: seq<Key>, n: nat): World
    requires n <= |order|
  {
    w.(instances := w.instances - set i | 0 <= i < n :: CacheName(order[i]))
  }

  lemma WithoutIsAfter(w: World, order: seq<Key>, n: nat)
    requires n <= |order|
    ensures AfterDeleting(w, Without(w, order, n), order, n)
  {
    var gone := set i | 0 <= i < n :: CacheName(order[i]);
    forall key ensures CacheName(key) in gone <==> key in order[..n] {
      if key in order[..n] {
        var i :| 0 <= i < n && order[..n][i] == key;
        assert CacheName(order[i]) in gone;
      }
    }
  }

  /** Whatever a prune is killed at, the chains it keeps stay closed: past the first miss of such a
      chain every name is free. */
  lemma KeptTargetsFree(w0: World, w: World, keep: set<Key>, inputs: BuildInputs, j: nat)
    requires PartlyPruned(w0, w, keep) && ParentClosed(w0)
    requires forall i :: 0 <= i < |inputs.stages| ==> KeyAt(inputs, i) in keep
    requires j < |inputs.stages| && !Cached(w, KeyAt(inputs, j))
    ensures TargetsFree(w, inputs, j)
  {
    forall m | j <= m < |inputs.stages| ensures !Cached(w, KeyAt(inputs, m)) {
      MissingStaysMissing(w0, inputs, j, m);
    }
  }

  /** The first stage of a generation that is not kept is not kept. */
  lemma GenerationNotKept(settings: Settings, m: Manifest, pin: Pin, previous: nat, generation: int)
    requires settings.Ok() && |settings.stages| > 0 && !KeptGeneration(m.generation, previous, generation)
    ensures !ToKeep(settings, m, pin, previous, KeyAt(ChainInputs(settings, m, pin, generation), 0))
  {
    var inputs := ChainInputs(settings, m, pin, generation);
    forall g, i | KeptGeneration(m.generation, previous, g) && 0 <= i < |settings.stages|
      ensures KeyAt(ChainInputs(settings, m, pin, g), i) != KeyAt(inputs, 0)
    {
      var other := ChainInputs(settings, m, pin, g);
      KeyAtShaped(inputs, 0);
      if i == 0 {
        KeyAtExact(other, inputs, 0);
      } else {
        ChainKeysDistinct(other, inputs, i, 0);
      }
    }
  }

  /** A prune killed between the first two deletions of a generation that it does not keep: the cache
      is open, and a build of that generation finds the name of its second stage taken. */
  lemma HalfPruneCanOpen(settings: Settings, m: Manifest, pin: Pin, previous: nat, generation: int, keep: set<Key>)
    returns (w0: World, w: World, order: seq<Key>)
    requires settings.Ok() && |settings.stages| >= 2 && !KeptGeneration(m.generation, previous, generation)
    requires forall key :: key in keep <==> ToKeep(settings, m, pin, previous, key)
    ensures Safe(w0) && ParentClosed(w0) && w0.manifest == m
    ensures OrderCovers(w0, keep, order) && |order| == 2 && AfterDeleting(w0, w, order, 1)
    ensures PartlyPruned(w0, w, keep)
    ensures Safe(w) && !ParentClosed(w)
    ensures var inputs := ChainInputs(settings, m, pin, generation);
            !Cached(w, KeyAt(inputs, 0)) && !TargetsFree(w, inputs, 0)
  {
    var inputs := ChainInputs(settings, m, pin, generation);
    var k0, k1 := KeyAt(inputs, 0), KeyAt(inputs, 1);
    KeyAtShaped(inputs, 0);
    KeyAtShaped(inputs, 1);
    ChainKeysDistinct(inputs, inputs, 0, 1);
    GenerationNotKept(settings, m, pin, previous, generation);
    assert k1.parent == k0 && k0 !in keep;
    if k1 in keep {
      ToKeepClosed(settings, m, pin, previous, k1);
    }
    w0 := World(map[CacheName(k0) := EntryInstance(k0, 0), CacheName(k1) := EntryInstance(k1, 0)], None, map[], m, 0);
    w := World(map[CacheName(k1) := EntryInstance(k1, 0)], None, map[], m, 0);
    order := [k0, k1];
    hide ToKeep;
    assert forall k :: Cached(w0, k) <==> k == k0 || k == k1;
    assert forall k :: Cached(w, k) <==> k == k1;
    assert order[..1] == [k0];
    assert Cached(w, k1);
  }

  /** A build that uses the cache gets through its stages only if none of them has an entry past the
      first miss; over an open cache it ends at the first that has. */
  lemma TakenNameStopsBuild(w0: World, w: World, plan: Plan, publish: bool, r: RunReport)
    requires plan.WellFormed() && !plan.IsNoop() && !plan.noCache && CacheOutcome(w0, w, plan, publish, r)
    requires !TargetsFree(w0, plan.inputs, plan.FirstBuild())
    ensures !AllStages(r)
  {
    if AllStages(r) {
      AllStagesGrew(w0, w, plan, publish, r);
    }
  }

  /** So a chain with a gap stops every build that uses the cache. */
  lemma GapStopsBuild(w0: World, w: World, plan: Plan, publish: bool, r: RunReport, j: nat, m: nat)
    requires PlanOf(w0, plan) && !plan.IsNoop() && !plan.noCache && CacheOutcome(w0, w, plan, publish, r)
    requires j < m < |plan.inputs.stages| && !Cached(w0, KeyAt(plan.inputs, j)) && Cached(w0, KeyAt(plan.inputs, m))
    ensures !AllStages(r)
  {
    HitsEndAt(w0, plan, j);
    TakenNameStopsBuild(w0, w, plan, publish, r);
  }

  /** A `--no-cache` build deletes an entry before it renames the new one into place, so the cache
      may be open in between. It ends closed unless a commit failed after the deletion, and the entry
      of that stage had a child. */
  lemma NoCacheBuildClosedExact(w0: World, w: World, plan: Plan, publish: bool, r: RunReport)
    requires plan.WellFormed() && !plan.IsNoop() && CacheOutcome(w0, w, plan, publish, r) && plan.noCache
    requires ParentClosed(w0) && PlanOf(w0, plan) && WellStamped(w0)
    ensures ParentClosed(w) <==>
              (r.Raised? && r.failure.StageError? && r.failure.result.CommitFailed?
               && plan.FirstBuild() + r.rebuilt < |plan.inputs.stages| ==>
                 || Cached(w, KeyAt(plan.inputs, plan.FirstBuild() + r.rebuilt))
                 || !HasChild(w0, KeyAt(plan.inputs, plan.FirstBuild() + r.rebuilt)))
  {
    hide *;
    NoCacheStartsAtZero(w0, plan);
    AllStagesIs(r);
    if r.Raised? && r.failure.StageError? {
      StageErrorStopped(w0, w, plan, publish, r);
      StepKey(plan, r.rebuilt);
      NoCacheStopped(w0, w, plan, r.rebuilt, r.failure.result);
    } else if AllStages(r) {
      AllStagesGrew(w0, w, plan, publish, r);
      ClosedGrowsClosed(w0, w, plan, |plan.steps|);
    } else {
      NoStageBuilt(w0, w, plan, publish, r);
    }
  }

  lemma ClosedGrowsClosed(w0: World, w: World, plan: Plan, j: nat)
    requires plan.WellFormed() && j <= |plan.steps| && Grown(w0, w, plan, 0, j) && ParentClosed(w0)
    ensures ParentClosed(w)
  {
    hide Grown, Between;
    GrownFromZeroCloses(w0, w, plan, j);
  }

  lemma NoStageBuilt(w0: World, w: World, plan: Plan, publish: bool, r: RunReport)
    requires plan.WellFormed() && !plan.IsNoop() && CacheOutcome(w0, w, plan, publish, r)
    requires !AllStages(r) && !r.failure.StageError? && ParentClosed(w0)
    ensures ParentClosed(w)
  {
    hide KeyAt, Loaded, BuildOutcome;
  }

  ghost predicate HasChild(w: World, key: Key) {
    exists child :: Cached(w, child) && child.Link? && child.parent == key
  }

  lemma GrownFromZeroCloses(w0: World, w: World, plan: Plan, j: nat)
    requires plan.WellFormed() && j <= |plan.steps| && Grown(w0, w, plan, 0, j)
    requires forall k :: Cached(w0, k) && k.Link? && k.parent.Link? ==>
        Cached(w0, k.parent) || Between(plan, 0, j, k.parent)
    ensures ParentClosed(w)
  {
    forall k | Cached(w, k) && k.Link? && k.parent.Link? ensures Cached(w, k.parent) {
      if Between(plan, 0, j, k) {
        var i :| 0 <= i < j && k == KeyAt(plan.inputs, i);
        assert k.parent == KeyAt(plan.inputs, i - 1);
        assert Between(plan, 0, j, KeyAt(plan.inputs, i - 1));
      }
    }
  }

  lemma NoCacheStopped(w0: World, w: World, plan: Plan, j: nat, result: StageResult)
    requires plan.WellFormed() && j < |plan.steps| && ParentClosed(w0) && StoppedAt(w0, w, plan, 0, j, result)
    ensures ParentClosed(w) <==>
              (result.CommitFailed? ==> Cached(w, KeyAt(plan.inputs, j)) || !HasChild(w0, KeyAt(plan.inputs, j)))
  {
    hide Grown, GrownWithHole;
    if Grown(w0, w, plan, 0, j) {
      GrownFromZeroCloses(w0, w, plan, j);
      NotGrownYet(w0, w, plan, j);
    } else if Grown(w0, w, plan, 0, j + 1) {
      GrownFromZeroCloses(w0, w, plan, j + 1);
      BetweenNext(plan, 0, j);
      GrownHas(w0, w, plan, j + 1, KeyAt(plan.inputs, j));
    } else {
      HoleIsOpen(w0, w, plan, j);
    }
  }

  lemma GrownHas(w0: World, w: World, plan: Plan, j: nat, key: Key)
    requires plan.WellFormed() && j <= |plan.steps| && Grown(w0, w, plan, 0, j)
    ensures Cached(w, key) <==> Cached(w0, key) || Between(plan, 0, j, key)
  {
  }

  /** A stage that had no entry, and got none, has no child in a closed cache. */
  lemma NotGrownYet(w0: World, w: World, plan: Plan, j: nat)
    requires plan.WellFormed() && j < |plan.steps| && ParentClosed(w0) && Grown(w0, w, plan, 0, j)
    ensures Cached(w, KeyAt(plan.inputs, j)) || !HasChild(w0, KeyAt(plan.inputs, j))
  {
    GrownHas(w0, w, plan, j, KeyAt(plan.inputs, j));
  }

  lemma HoleIsOpen(w0: World, w: World, plan: Plan, j: nat)
    requires plan.WellFormed() && j < |plan.steps| && ParentClosed(w0) && GrownWithHole(w0, w, plan, 0, j)
    ensures !Cached(w, KeyAt(plan.inputs, j))
    ensures ParentClosed(w) <==> !HasChild(w0, KeyAt(plan.inputs, j))
  {
    var key := KeyAt(plan.inputs, j);
    BetweenNext(plan, 0, j);
    forall k | Cached(w, k) && k.Link? && k.parent.Link? && k.parent != key ensures Cached(w, k.parent) {
      if Between(plan, 0, j, k) {
        var i :| 0 <= i < j && k == KeyAt(plan.inputs, i);
        assert k.parent == KeyAt(plan.inputs, i - 1);
        assert Between(plan, 0, j, KeyAt(plan.inputs, i - 1));
      }
    }
    forall k: Key | k.Link? && k.parent == key ensures Cached(w, k) <==> Cached(w0, k) {
      ChildOfLater(plan, 0, j, k);
      assert k != key;
    }
    if HasChild(w0, key) {
      var child :| Cached(w0, child) && child.Link? && child.parent == key;
      assert Cached(w, child);
    }
  }

  /** A `--no-cache` build that gets through every stage closes the cache again, also one that an
      earlier build left open, as long as only entries of its own chain are missing. */
  lemma NoCacheBuildClosesAgain(w0: World, w: World, plan: Plan, publish: bool, r: RunReport)
    requires plan.WellFormed() && !plan.IsNoop() && CacheOutcome(w0, w, plan, publish, r) && plan.noCache
    requires AllStages(r) && PlanOf(w0, plan)
    requires forall k :: Cached(w0, k) && k.Link? && k.parent.Link? ==>
        Cached(w0, k.parent) || OnChain(plan.inputs, k.parent)
    ensures ParentClosed(w)
  {
    AllStagesGrew(w0, w, plan, publish, r);
    NoCacheStartsAtZero(w0, plan);
    forall k | OnChain(plan.inputs, k) ensures Between(plan, 0, |plan.steps|, k) {
      var i :| 0 <= i < |plan.inputs.stages| && k == KeyAt(plan.inputs, i);
    }
    GrownFromZeroCloses(w0, w, plan, |plan.steps|);
  }

  lemma NoCacheStartsAtZero(w: World, plan: Plan)
    requires PlanOf(w, plan) && plan.noCache
    ensures plan.FirstBuild() == 0
  {
    if plan.FirstBuild() > 0 {
      HitsAreEntries(w, plan, plan.FirstBuild());
    }
  }

  // ---- staleness --------------------------------------------------------------------------------------

  /** The stamps along a paced line add up: `n` steps are at most `n` ceilings and spans apart. */
  lemma {:induction false} PacedLineAddsUp(line: seq<int>, ceiling: int, span: int, n: nat)
    requires PacedLine(line, ceiling, span) && 1 <= n < |line|
    ensures line[n] - line[0] <= (n - 1) * (ceiling + span) + span
  {
    if n > 1 {
      PacedLineAddsUp(line, ceiling, span, n - 1);
      assert line[(n - 1) + 1] - line[n - 1] <= ceiling + span;
      assert (n - 1) * (ceiling + span) == (n - 2) * (ceiling + span) + (ceiling + span);
    }
  }

  /** When the first stage of an entry's content started to run. */
  function Born(w: World, key: Key): int
    requires Cached(w, key) && |w.instances[CacheName(key)].lineage| > 0
  {
    w.instances[CacheName(key)].lineage[0]
  }

  lemma EntryAge(w: World, inputs: BuildInputs, i: nat, ceiling: int, span: int, now: int, slack: int)
    requires Paced(w, ceiling, span) && i < |inputs.stages| && Cached(w, KeyAt(inputs, i))
    requires StampedSince(w, KeyAt(inputs, i), now - slack)
    ensures |w.instances[CacheName(KeyAt(inputs, i))].lineage| > 0
    ensures now - Born(w, KeyAt(inputs, i)) <= slack + i * (ceiling + span) + span
  {
    DepthOfKeyAt(inputs, i);
    var line := w.instances[CacheName(KeyAt(inputs, i))].lineage;
    assert PacedEntry(KeyAt(inputs, i), w.instances[CacheName(KeyAt(inputs, i))], ceiling, span);
    PacedLineAddsUp(line, ceiling, span, i + 1);
  }

  lemma ReusedSince(w: World, plan: Plan)
    requires PlanOf(w, plan) && !plan.IsNoop() && !plan.Stale() && plan.FirstBuild() > 0
    ensures plan.FirstBuild() <= |plan.inputs.stages| && Cached(w, KeyAt(plan.inputs, plan.FirstBuild() - 1))
    ensures StampedSince(w, KeyAt(plan.inputs, plan.FirstBuild() - 1), plan.now - plan.Ceiling())
  {
    StaleIsTooOld(plan);
    ReusedInPlace(w, plan);
  }

  /** What a build reuses is never older, all the way down to its first stage, than one ceiling
      and one build per reused stage, although only the deepest entry's own stamp is checked. */
  lemma ReusedContentIsFresh(w: World, plan: Plan, span: int)
    requires PlanOf(w, plan) && !plan.IsNoop() && Paced(w, plan.Ceiling(), span)
    requires !plan.Stale() && plan.FirstBuild() > 0
    ensures Cached(w, KeyAt(plan.inputs, plan.FirstBuild() - 1))
    ensures |w.instances[CacheName(KeyAt(plan.inputs, plan.FirstBuild() - 1))].lineage| > 0
    ensures plan.now - Born(w, KeyAt(plan.inputs, plan.FirstBuild() - 1)) <= plan.FirstBuild() * (plan.Ceiling() + span)
  {
    hide *;
    var d := plan.FirstBuild();
    ReusedSince(w, plan);
    EntryAge(w, plan.inputs, d - 1, plan.Ceiling(), span, plan.now, plan.Ceiling());
    assert d * (plan.Ceiling() + span) == (d - 1) * (plan.Ceiling() + span) + (plan.Ceiling() + span);
  }

  lemma RanPlan(w0: World, w: World, settings: Settings, req: Request, r: BuildResult)
    requires BuildEffect(w0, w, settings, req, r) && r.Ran?
    ensures r.plan.WellFormed() && Planned(w0.manifest, settings, req, r.plan) && PlanOf(w0, r.plan)
    ensures r.plan.now == w0.now && !r.plan.IsNoop() && CacheOutcome(w0, w, r.plan, req.publish, r.report)
    ensures r.plan.alias == req.alias && r.plan.noCache == req.noCache
    ensures r.plan.inputs.stages == settings.stages && r.plan.Ceiling() == CeilingOf(settings.maxAgeDays)
    ensures |r.plan.steps| == |r.plan.inputs.stages|
    ensures r.report.Raised? ==> StrandedAfter(w, r.plan, Some(r.report.failure), r.report.rebuilt)
  {
  }

  lemma PacedAsPromised(w0: World, w: World, settings: Settings, req: Request, span: int, plan: Plan)
    requires settings.Ok() && plan.WellFormed() && Planned(w0.manifest, settings, req, plan) && plan.now == w0.now
    requires KeepsPace(w0, settings, req, span) && Holds(BuildPromise(w0, settings, req, span), w)
    requires TemplateRecent(BuildPromise(w0, settings, req, span), plan, w) && w.now <= w0.now + span
    ensures Paced(w, plan.Ceiling(), span) && StampedSince(w, plan.BuildKey(), plan.now - plan.Ceiling())
    ensures plan.inputs.stages == settings.stages && |settings.stages| > 0
    ensures plan.BuildKey() == KeyAt(plan.inputs, |settings.stages| - 1) && Cached(w, plan.BuildKey())
  {
    hide Denotes, Shaped, Within, PacedLine, Rising;
  }

  /** The template that a build publishes, or has ready to publish, when the build itself took at most
      `span`. */
  lemma PublishedContentIsFresh(w0: World, w: World, settings: Settings, req: Request, span: int, r: BuildResult)
    requires settings.Ok() && BuildEffect(w0, w, settings, req, r) && r.Ran? && AllStages(r.report)
    requires KeepsPace(w0, settings, req, span) && Holds(BuildPromise(w0, settings, req, span), w)
    requires TemplateRecent(BuildPromise(w0, settings, req, span), r.plan, w)
    requires w.now <= w0.now + span
    ensures Cached(w, r.plan.BuildKey()) && |w.instances[CacheName(r.plan.BuildKey())].lineage| > 0
    ensures w.now - Born(w, r.plan.BuildKey()) <= |settings.stages| * (r.plan.Ceiling() + span) + span
  {
    hide *;
    var n := |settings.stages|;
    var c := r.plan.Ceiling();
    RanPlan(w0, w, settings, req, r);
    PacedAsPromised(w0, w, settings, req, span, r.plan);
    EntryAge(w, r.plan.inputs, n - 1, c, span, w0.now, c);
    assert n * (c + span) == (n - 1) * (c + span) + (c + span);
  }

  // ---- whole lifetimes --------------------------------------------------------------------------------

  /** A build, a prune, or a pause in which neither is at work. */
  datatype Command =
    | Pause
    | BuildCommand(settings: Settings, req: Request)
    | PruneCommand(settings: Settings, source: string, keepGenerations: nat, all: bool)
  {
    predicate Ok() {
      BuildCommand? ==> settings.Ok()
    }
  }

  /** How a command ended. A build: with a result, unless it was killed where `actor` stood, and with at
      most one entry deleted and not replaced. A prune: with the first `deleted` deletions of `order`
      done. */
  datatype Ending =
    | Paused
    | BuildEnded(result: Option<BuildResult>, gap: Option<Key>, actor: Actor)
    | PruneEnded(pin: Pin, keep: set<Key>, order: seq<Key>, deleted: nat)

  /** Of the entries of `w` exactly this one is gone. */
  ghost predicate Lost(w: World, w': World, gap: Option<Key>) {
    forall key :: Cached(w, key) && !Cached(w', key) <==> gap == Some(key)
  }

  /** What a build that was not killed did, and that its template is as recent as its check of ages. */
  ghost predicate BuildReported(w: World, w': World, settings: Settings, req: Request, span: int, r: BuildResult) {
    && BuildEffect(w, w', settings, req, r)
    && (r.Ran? && AllStages(r.report) ==> TemplateRecent(BuildPromise(w, settings, req, span), r.plan, w'))
  }

  /** What a command, which may have been killed after any of its steps, did to the host. */
  ghost predicate Happened(c: Command, w: World, w': World, e: Ending, maxAgeDays: nat, span: int) {
    match c
    case Pause => e.Paused? && Passed(w, w')
    case BuildCommand(settings, req) =>
      && e.BuildEnded? && Holds(BuildPromise(w, settings, req, span), w')
      && LacksOnly(w, w', e.actor)
      && (ParentClosed(w) ==> Lost(w, w', e.gap))
      && (ParentClosed(w) && e.gap.Some? ==> RequestedKey(settings, w.manifest, req, e.gap.value))
      && (e.result.Some? ==> BuildReported(w, w', settings, req, span, e.result.value))
    case PruneCommand(settings, source, keepGenerations, all) =>
      && e.PruneEnded? && Holds(PrunePromise(w, Some(Pace(CeilingOf(maxAgeDays), span, w.now))), w')
      && e.deleted <= |e.order| && AfterDeleting(w, w', e.order, e.deleted)
      && (e.order != [] ==>
            && OrderCovers(w, e.keep, e.order)
            && forall key :: key in e.keep <==>
                 ToKeep(settings, w.manifest, e.pin, if all then 0 else keepGenerations, key))
  }

  /** A life of the host: one world before, between and after the commands. */
  ghost predicate Life(worlds: seq<World>, commands: seq<Command>, endings: seq<Ending>, maxAgeDays: nat, span: int) {
    && |worlds| == |commands| + 1 && |endings| == |commands|
    && forall i :: 0 <= i < |commands| ==>
         Happened(commands[i], worlds[i], worlds[i + 1], endings[i], maxAgeDays, span)
  }

  /** The ending does not open a closed cache: a `--no-cache` build has replaced what it deleted, or
      what it deleted had no child; a prune was not stopped between a parent and its child. */
  ghost predicate StaysClosed(c: Command, w: World, e: Ending) {
    match c
    case Pause => true
    case BuildCommand(_, req) => req.noCache && e.BuildEnded? && e.gap.Some? ==> !HasChild(w, e.gap.value)
    case PruneCommand(_, _, _, _) => e.PruneEnded? && e.deleted <= |e.order| ==> !Splits(e.order, e.deleted)
  }

  /** The command lowers no generation below that of the world it meets. */
  predicate LowersNothing(c: Command, w: World) {
    c.BuildCommand? ==> KeepsGeneration(c.req, w.manifest)
  }

  /** The command gives up no age check: `--allow-stale` would, and a refresh might reuse something if
      generations had been lowered. One age ceiling throughout. */
  ghost predicate Checked(c: Command, w: World, maxAgeDays: nat) {
    c.BuildCommand? ==>
      && !c.req.allowStale && c.settings.maxAgeDays == maxAgeDays
      && (c.req.refresh ==> NoneNewer(w, w.manifest, OfAll) && KeepsGeneration(c.req, w.manifest))
  }

  /** A build or prune takes at most `span`; a pause takes as long as it takes. */
  predicate OnTime(c: Command, w: World, w': World, span: int) {
    !c.Pause? ==> w'.now <= w.now + span
  }

  lemma BystandersCompose(w0: World, w1: World, w2: World)
    ensures BystandersKept(w0, w0)
    ensures BystandersKept(w0, w1) && BystandersKept(w1, w2) ==> BystandersKept(w0, w2)
  {
  }

  // ---- one command ----

  lemma SafeStep(c: Command, w: World, w': World, e: Ending, maxAgeDays: nat, span: int)
    requires Happened(c, w, w', e, maxAgeDays, span) && Safe(w)
    ensures Safe(w') && (!c.Pause? ==> BystandersKept(w, w'))
  {
  }

  lemma PassedKeepsBound(w: World, w': World, extent: Extent)
    requires Passed(w, w') && NoneNewer(w, w.manifest, extent)
    ensures NoneNewer(w', w'.manifest, extent)
  {
    hide Within;
  }

  /** Stage generations are never lowered, so their bound is never lost; the other one is kept by a
      command that lowers nothing. */
  lemma BoundStep(c: Command, w: World, w': World, e: Ending, maxAgeDays: nat, span: int)
    requires Happened(c, w, w', e, maxAgeDays, span)
    ensures NoneNewer(w, w.manifest, OfStages) ==> NoneNewer(w', w'.manifest, OfStages)
    ensures NoneNewer(w, w.manifest, OfAll) && LowersNothing(c, w) ==> NoneNewer(w', w'.manifest, OfAll)
  {
    hide NoneNewer;
    if c.Pause? {
      if NoneNewer(w, w.manifest, OfStages) {
        PassedKeepsBound(w, w', OfStages);
      }
      if NoneNewer(w, w.manifest, OfAll) {
        PassedKeepsBound(w, w', OfAll);
      }
    } else if NoneNewer(w', w'.manifest, OfAll) {
      NoneNewerOfStages(w', w'.manifest);
    }
  }

  lemma PassedKeepsPace(w: World, w': World, ceiling: int, span: int)
    requires Passed(w, w') && Paced(w, ceiling, span)
    ensures Paced(w', ceiling, span)
  {
    hide PacedEntry;
  }

  lemma PaceStep(c: Command, w: World, w': World, e: Ending, maxAgeDays: nat, span: int)
    requires Happened(c, w, w', e, maxAgeDays, span) && Checked(c, w, maxAgeDays) && OnTime(c, w, w', span)
    requires Paced(w, CeilingOf(maxAgeDays), span)
    ensures Paced(w', CeilingOf(maxAgeDays), span)
  {
    hide Paced, NoneNewer;
    if c.Pause? {
      PassedKeepsPace(w, w', CeilingOf(maxAgeDays), span);
    }
  }

  /** Over a closed cache at most one entry is gone, and the cache is closed exactly if nothing, or an
      entry without a child, is. */
  lemma GapClosedExact(w: World, w': World, among: iset<Key>, gap: Option<Key>)
    requires ParentClosed(w) && WellStamped(w) && OneGap(w, w', among) && Lost(w, w', gap)
    ensures ParentClosed(w') <==> gap.None? || !HasChild(w, gap.value)
  {
    if gap.Some? {
      var only :| only in among && IntactBut(w, w', only);
      assert Cached(w, gap.value) && !Cached(w', gap.value);
      if HasChild(w, gap.value) {
        var child :| Cached(w, child) && child.Link? && child.parent == gap.value;
        assert Cached(w', child);
      }
    }
  }

  /** A command leaves a closed cache closed exactly if its ending is one that does. */
  lemma ClosedStepExact(c: Command, w: World, w': World, e: Ending, maxAgeDays: nat, span: int)
    requires Happened(c, w, w', e, maxAgeDays, span) && ParentClosed(w) && Safe(w)
    ensures ParentClosed(w') <==> StaysClosed(c, w, e)
  {
    hide Denotes, Shaped, BuildEffect, ToKeep, NoneNewer, Paced;
    match c {
      case Pause =>
      case BuildCommand(settings, req) =>
        if req.noCache {
          GapClosedExact(w, w', BuildPromise(w, settings, req, span).among, e.gap);
        }
      case PruneCommand(settings, source, keepGenerations, all) =>
        if e.order != [] {
          KeptHasParents(settings, w.manifest, e.pin, if all then 0 else keepGenerations, e.keep);
          CutPruneClosed(w, w', e.keep, e.order, e.deleted);
        }
    }
  }

  lemma KeptHasParents(settings: Settings, m: Manifest, pin: Pin, previous: nat, keep: set<Key>)
    requires forall key :: key in keep <==> ToKeep(settings, m, pin, previous, key)
    ensures KeepsParents(keep)
  {
    forall key | key in keep && key.Link? && key.parent.Link? ensures key.parent in keep {
      ToKeepClosed(settings, m, pin, previous, key);
    }
  }

  predicate CommitWentWrong(r: BuildResult) {
    r.Ran? && r.report.Raised? && r.report.failure.StageError? && r.report.failure.result.CommitFailed?
  }

  /** A build that was not killed has deleted without replacing only if it used `--no-cache` and a
      commit failed: then it is the entry of that commit's stage. */
  lemma GapOfResult(w: World, w': World, settings: Settings, req: Request, r: BuildResult, gap: Option<Key>)
    requires BuildEffect(w, w', settings, req, r) && Lost(w, w', gap)
    ensures gap.Some? ==> req.noCache && CommitWentWrong(r)
    ensures gap.Some? ==>
              var j := r.plan.FirstBuild() + r.report.rebuilt;
              j < |r.plan.inputs.stages| && gap.value == KeyAt(r.plan.inputs, j)
  {
    if r.Ran? {
      RanPlan(w, w', settings, req, r);
      GapOfRun(w, w', r.plan, req.publish, r.report, gap);
    }
  }

  lemma GapOfRun(w: World, w': World, plan: Plan, publish: bool, r: RunReport, gap: Option<Key>)
    requires plan.WellFormed() && !plan.IsNoop() && CacheOutcome(w, w', plan, publish, r) && Lost(w, w', gap)
    ensures gap.Some? ==>
              && plan.noCache && r.Raised? && r.failure.StageError? && r.failure.result.CommitFailed?
              && plan.FirstBuild() + r.rebuilt < |plan.inputs.stages|
              && gap.value == KeyAt(plan.inputs, plan.FirstBuild() + r.rebuilt)
  {
    hide KeyAt, Between, Loaded, AclLeft;
    assert gap.Some? ==> Cached(w, gap.value) && !Cached(w', gap.value);
    if r.Raised? && r.failure.StageError? {
      StageErrorStopped(w, w', plan, publish, r);
    } else if AllStages(r) {
      AllStagesGrew(w, w', plan, publish, r);
    }
  }

  // ---- the whole life ----

  lemma {:induction false} LifeIsSafe(worlds: seq<World>, commands: seq<Command>, endings: seq<Ending>,
                                      maxAgeDays: nat, span: int, i: nat)
    requires Life(worlds, commands, endings, maxAgeDays, span) && Safe(worlds[0]) && i <= |commands|
    ensures Safe(worlds[i])
    ensures (forall k :: 0 <= k < i && commands[k].Pause? ==> BystandersKept(worlds[k], worlds[k + 1]))
            ==> BystandersKept(worlds[0], worlds[i])
  {
    hide Safe, BystandersKept, Happened;
    BystandersCompose(worlds[0], worlds[0], worlds[0]);
    if i > 0 {
      LifeIsSafe(worlds, commands, endings, maxAgeDays, span, i - 1);
      SafeStep(commands[i - 1], worlds[i - 1], worlds[(i - 1) + 1], endings[i - 1], maxAgeDays, span);
      BystandersCompose(worlds[0], worlds[i - 1], worlds[i]);
    }
  }

  /** From a closed cache on, the cache is closed as long as every ending is one that keeps it so, and
      open after the first that is not. */
  lemma {:induction false} LifeClosedExact(worlds: seq<World>, commands: seq<Command>, endings: seq<Ending>,
                                           maxAgeDays: nat, span: int, n: nat)
    requires Life(worlds, commands, endings, maxAgeDays, span) && Safe(worlds[0]) && n <= |commands|
    ensures (forall i :: 0 <= i <= n ==> ParentClosed(worlds[i]))
            <==> ParentClosed(worlds[0]) && forall i :: 0 <= i < n ==> StaysClosed(commands[i], worlds[i], endings[i])
  {
    hide Safe, ParentClosed, Happened, StaysClosed;
    if n > 0 {
      LifeClosedExact(worlds, commands, endings, maxAgeDays, span, n - 1);
      LifeIsSafe(worlds, commands, endings, maxAgeDays, span, n - 1);
      if ParentClosed(worlds[n - 1]) {
        ClosedStepExact(commands[n - 1], worlds[n - 1], worlds[(n - 1) + 1], endings[n - 1], maxAgeDays, span);
      }
    }
  }

  lemma {:induction false} LifeKeepsBounds(worlds: seq<World>, commands: seq<Command>, endings: seq<Ending>,
                                           maxAgeDays: nat, span: int, n: nat)
    requires Life(worlds, commands, endings, maxAgeDays, span) && n <= |commands|
    ensures NoneNewer(worlds[0], worlds[0].manifest, OfStages) ==>
              NoneNewer(worlds[n], worlds[n].manifest, OfStages)
    ensures NoneNewer(worlds[0], worlds[0].manifest, OfAll)
            && (forall i :: 0 <= i < n ==> LowersNothing(commands[i], worlds[i]))
            ==> NoneNewer(worlds[n], worlds[n].manifest, OfAll)
  {
    hide NoneNewer, Happened, LowersNothing;
    if n > 0 {
      LifeKeepsBounds(worlds, commands, endings, maxAgeDays, span, n - 1);
      BoundStep(commands[n - 1], worlds[n - 1], worlds[(n - 1) + 1], endings[n - 1], maxAgeDays, span);
    }
  }

  lemma {:induction false} LifeKeepsPace(worlds: seq<World>, commands: seq<Command>, endings: seq<Ending>,
                                         maxAgeDays: nat, span: int, n: nat)
    requires Life(worlds, commands, endings, maxAgeDays, span) && n <= |commands|
    requires Paced(worlds[0], CeilingOf(maxAgeDays), span)
    requires forall i :: 0 <= i < n ==>
               Checked(commands[i], worlds[i], maxAgeDays) && OnTime(commands[i], worlds[i], worlds[i + 1], span)
    ensures Paced(worlds[n], CeilingOf(maxAgeDays), span)
  {
    hide Paced, Happened, Checked, OnTime;
    if n > 0 {
      LifeKeepsPace(worlds, commands, endings, maxAgeDays, span, n - 1);
      assert Checked(commands[n - 1], worlds[n - 1], maxAgeDays)
          && OnTime(commands[n - 1], worlds[n - 1], worlds[(n - 1) + 1], span);
      PaceStep(commands[n - 1], worlds[n - 1], worlds[(n - 1) + 1], endings[n - 1], maxAgeDays, span);
    }
  }

  /** What a build reuses is not stale: a refresh reuses nothing, and otherwise it would have refused. */
  lemma ReusedIsNotStale(w: World, w': World, settings: Settings, req: Request, plan: Plan, report: RunReport,
                         maxAgeDays: nat)
    requires BuildEffect(w, w', settings, req, Ran(plan, report))
    requires Checked(BuildCommand(settings, req), w, maxAgeDays)
    requires !RefusedAsStale(report) && plan.FirstBuild() > 0
    ensures PlanOf(w, plan) && !plan.IsNoop() && !plan.Stale()
    ensures plan.Ceiling() == CeilingOf(maxAgeDays) && plan.now == w.now
  {
    hide CacheOutcome, AclOutcome, StrandedAfter, NoneNewer;
    if req.refresh {
      RefreshReusesNothing(w, settings, req, plan);
    }
  }

  /** What a build that ended reused, and what it got ready to publish, is no older than that. */
  ghost predicate Fresh(w: World, w': World, plan: Plan, report: RunReport, ceiling: int, span: int) {
    && plan.WellFormed()
    && (plan.FirstBuild() > 0 && !RefusedAsStale(report) ==>
          BornSince(w, plan.inputs, plan.FirstBuild() - 1, w.now - plan.FirstBuild() * (ceiling + span)))
    && (AllStages(report) ==>
          BornSince(w', plan.inputs, |plan.inputs.stages| - 1,
                    w'.now - |plan.inputs.stages| * (ceiling + span) - span))
  }

  /** The entry of stage `j` is there, and its first stage started to run at `since` or later. */
  ghost predicate BornSince(w: World, inputs: BuildInputs, j: int, since: int) {
    && 0 <= j < |inputs.stages| && Cached(w, KeyAt(inputs, j))
    && |w.instances[CacheName(KeyAt(inputs, j))].lineage| > 0
    && since <= Born(w, KeyAt(inputs, j))
  }

  lemma CommandContentIsFresh(c: Command, w: World, w': World, e: Ending, maxAgeDays: nat, span: int)
    requires Happened(c, w, w', e, maxAgeDays, span) && c.BuildCommand? && c.settings.Ok()
    requires e.BuildEnded? && e.result.Some? && e.result.value.Ran?
    requires Checked(c, w, maxAgeDays) && OnTime(c, w, w', span) && Paced(w, CeilingOf(maxAgeDays), span)
    ensures Fresh(w, w', e.result.value.plan, e.result.value.report, CeilingOf(maxAgeDays), span)
  {
    hide *;
    HappenedGives(c, w, w', e, maxAgeDays, span);
    var plan, report := e.result.value.plan, e.result.value.report;
    RanPlan(w, w', c.settings, c.req, e.result.value);
    var d, n := plan.FirstBuild(), |plan.inputs.stages|;
    BuildKeyIs(plan);
    if d > 0 && !RefusedAsStale(report) {
      ReusedIsNotStale(w, w', c.settings, c.req, plan, report, maxAgeDays);
      ReusedSince(w, plan);
      ReusedContentIsFresh(w, plan, span);
      BornIs(w, plan.inputs, d - 1, w.now - d * (CeilingOf(maxAgeDays) + span));
    }
    if AllStages(report) {
      CheckedKeepsPace(c.settings, c.req, w, maxAgeDays, span);
      PublishedContentIsFresh(w, w', c.settings, c.req, span, e.result.value);
      BornIs(w', plan.inputs, n - 1, w'.now - n * (CeilingOf(maxAgeDays) + span) - span);
    }
    FreshIs(w, w', plan, report, CeilingOf(maxAgeDays), span);
  }

  lemma BuildKeyIs(plan: Plan)
    requires plan.WellFormed()
    ensures |plan.inputs.stages| > 0 && plan.BuildKey() == KeyAt(plan.inputs, |plan.inputs.stages| - 1)
  {
  }

  lemma BornIs(w: World, inputs: BuildInputs, j: nat, since: int)
    requires j < |inputs.stages| && Cached(w, KeyAt(inputs, j))
    requires |w.instances[CacheName(KeyAt(inputs, j))].lineage| > 0 && since <= Born(w, KeyAt(inputs, j))
    ensures BornSince(w, inputs, j, since)
  {
  }

  lemma FreshIs(w: World, w': World, plan: Plan, report: RunReport, ceiling: int, span: int)
    requires plan.WellFormed()
    requires plan.FirstBuild() > 0 && !RefusedAsStale(report) ==>
               BornSince(w, plan.inputs, plan.FirstBuild() - 1, w.now - plan.FirstBuild() * (ceiling + span))
    requires AllStages(report) ==>
               BornSince(w', plan.inputs, |plan.inputs.stages| - 1,
                         w'.now - |plan.inputs.stages| * (ceiling + span) - span)
    ensures Fresh(w, w', plan, report, ceiling, span)
  {
    hide BornSince;
  }

  /** In a life in which every build checks ages, and every build and prune takes at most `span`, however
      long the pauses are: what a build reuses first ran at most one ceiling and span per hit ago, and
      what it publishes one per stage and its own duration, although each looks at one stamp only. */
  lemma LifeContentIsFresh(worlds: seq<World>, commands: seq<Command>, endings: seq<Ending>, maxAgeDays: nat,
                           span: int, i: nat)
    requires Life(worlds, commands, endings, maxAgeDays, span) && i < |commands|
    requires Paced(worlds[0], CeilingOf(maxAgeDays), span)
    requires forall k :: 0 <= k <= i ==>
               Checked(commands[k], worlds[k], maxAgeDays) && OnTime(commands[k], worlds[k], worlds[k + 1], span)
    requires commands[i].BuildCommand? && commands[i].settings.Ok()
    requires endings[i].BuildEnded? && endings[i].result.Some? && endings[i].result.value.Ran?
    ensures Fresh(worlds[i], worlds[i + 1], endings[i].result.value.plan, endings[i].result.value.report,
                  CeilingOf(maxAgeDays), span)
  {
    hide Fresh, Happened, Paced, Checked, OnTime, Loaded;
    LifeKeepsPace(worlds, commands, endings, maxAgeDays, span, i);
    CommandContentIsFresh(commands[i], worlds[i], worlds[i + 1], endings[i], maxAgeDays, span);
  }

  /** The entry that is gone, if any. */
  ghost function LostKey(w: World, w': World): Option<Key> {
    if key :| Cached(w, key) && !Cached(w', key) then Some(key) else None
  }

  lemma LostKeyIsLost(w: World, w': World, among: iset<Key>)
    requires OneGap(w, w', among)
    ensures Lost(w, w', LostKey(w, w'))
    ensures LostKey(w, w').Some? ==> LostKey(w, w').value in among
  {
    if !Intact(w, w') {
      var gap :| gap in among && IntactBut(w, w', gap);
    }
  }

  lemma GapUnderPromise(w: World, w': World, settings: Settings, req: Request, span: int)
    requires Holds(BuildPromise(w, settings, req, span), w') && ParentClosed(w)
    ensures Lost(w, w', LostKey(w, w'))
    ensures LostKey(w, w').Some? ==> RequestedKey(settings, w.manifest, req, LostKey(w, w').value)
  {
    LostKeyIsLost(w, w', BuildPromise(w, settings, req, span).among);
  }

  /** Where the actor of a build stood when this world was left. */
  lemma StoodAt(b: Builder, w: World, settings: Settings, req: Request, span: int, cut: nat) returns (actor: Actor)
    requires b.Recorded(BuildPromise(w, settings, req, span), 0) && cut < |b.incus.trace|
    ensures LacksOnly(w, b.incus.trace[cut], actor)
  {
    hide Holds, Step, LacksOnly;
    assert b.incus.trace[0..] == b.incus.trace;
    var i := LeftBy(b.run, cut);
    RunLacks(b.run, i);
    actor := b.run[i].actor;
  }

  lemma HappenedGives(c: Command, w: World, w': World, e: Ending, maxAgeDays: nat, span: int)
    requires Happened(c, w, w', e, maxAgeDays, span) && c.BuildCommand? && e.BuildEnded? && e.result.Some?
    requires Checked(c, w, maxAgeDays) && OnTime(c, w, w', span)
    ensures BuildEffect(w, w', c.settings, c.req, e.result.value)
    ensures Holds(BuildPromise(w, c.settings, c.req, span), w') && w'.now <= w.now + span
    ensures e.result.value.Ran? && AllStages(e.result.value.report) ==>
              TemplateRecent(BuildPromise(w, c.settings, c.req, span), e.result.value.plan, w')
    ensures Checked(BuildCommand(c.settings, c.req), w, maxAgeDays)
    ensures c.settings.maxAgeDays == maxAgeDays
  {
    hide BuildEffect, Holds, TemplateRecent, BuildPromise;
  }

  lemma CheckedKeepsPace(settings: Settings, req: Request, w: World, maxAgeDays: nat, span: int)
    requires Checked(BuildCommand(settings, req), w, maxAgeDays) && Paced(w, CeilingOf(maxAgeDays), span)
    ensures KeepsPace(w, settings, req, span)
  {
  }

  predicate NoEntry(names: set<Name>) {
    forall n :: n in names ==> !n.CacheName?
  }

  predicate OnlyOthers(instances: map<Name, Instance>) {
    forall n :: n in instances ==> n.OtherName?
  }

  /** A pause, with whatever happens to the instances that are none of the builder's. */
  method Rest(w: World) returns (w': World)
    ensures Passed(w, w')
  {
    var gone: set<Name> :| NoEntry(gone);
    var others: map<Name, Instance> :| OnlyOthers(others);
    var elapsed: int :| elapsed >= 0;
    w' := w.(instances := w.instances - gone + others, now := w.now + elapsed);
    assert NoEntry(gone) && OnlyOthers(others);
  }

  /** What a command meets: how Incus behaves, whether the caller grants the privilege that a build
      takes, and after how many steps, if ever, the process is killed. */
  datatype Setting = Setting(deletes: bool, honest: bool, able: bool, primed: bool, killed: Option<nat>)

  /** A command that is not killed, on a host on which everything works, does what was asked of it. */
  ghost predicate Achieved(c: Command, at: Setting, w: World, w': World, e: Ending) {
    at.killed.None? && at.able && at.deletes ==>
      match c
      case Pause => true
      case BuildCommand(settings, req) =>
        && e.BuildEnded? && e.result.Some?
        && (Acceptable(settings, req) ==>
              if req.dryRun then e.result.value.DryRun?
              else at.primed ==> e.result.value.NothingToDo? || e.result.value.Ran?)
        && (e.result.value.Ran? ==>
              && e.result.value.plan.WellFormed()
              && (e.result.value.report.Finished? <==>
                    CanFinish(w, e.result.value.plan, req.allowStale || req.refresh)))
      case PruneCommand(settings, _, keepGenerations, all) =>
        && e.PruneEnded? && Pruned(w, w', e.keep)
        && KeepsChains(settings, w.manifest, e.pin, if all then 0 else keepGenerations, e.keep)
  }

  lemma BuildAchieved(settings: Settings, req: Request, at: Setting, w: World, w': World, r: BuildResult,
                      last: bool, gap: Option<Key>, actor: Actor)
    requires at.killed.None? ==> last
    requires r.Ran? ==> r.plan.WellFormed()
    requires at.able && Acceptable(settings, req) ==>
               if req.dryRun then r.DryRun? else at.primed ==> r.NothingToDo? || r.Ran?
    requires at.able && at.deletes && r.Ran? ==>
               (r.report.Finished? <==> CanFinish(w, r.plan, req.allowStale || req.refresh))
    ensures Achieved(BuildCommand(settings, req), at, w, w', BuildEnded(if last then Some(r) else None, gap, actor))
  {
    hide Acceptable, CanFinish;
  }

  lemma PauseAchieved(at: Setting, w: World, w': World)
    ensures Achieved(Pause, at, w, w', Paused)
  {
  }

  lemma PruneAchieved(settings: Settings, source: string, keepGenerations: nat, all: bool, at: Setting, w: World,
                      w': World, pin: Pin, keep: set<Key>, order: seq<Key>, deleted: nat)
    requires at.killed.None? && at.able && at.deletes ==>
               && Pruned(w, w', keep)
               && KeepsChains(settings, w.manifest, pin, if all then 0 else keepGenerations, keep)
    ensures Achieved(PruneCommand(settings, source, keepGenerations, all), at, w, w',
                     PruneEnded(pin, keep, order, deleted))
  {
    hide Pruned, KeepsChains;
  }

  lemma RanToPlan(w: World, w': World, settings: Settings, req: Request, r: BuildResult)
    requires BuildEffect(w, w', settings, req, r) && r.Ran?
    ensures r.plan.WellFormed()
  {
  }

  /** The last world that the process sees. */
  function Last(at: Setting, trace: seq<World>): (last: nat)
    requires |trace| > 0
    ensures last < |trace| && (at.killed.None? ==> last == |trace| - 1)
  {
    if at.killed.Some? && at.killed.value < |trace| then at.killed.value else |trace| - 1
  }

  /** One command in a process of its own, which may be killed after any of its steps. */
  method Perform(w: World, c: Command, at: Setting, ghost maxAgeDays: nat, ghost span: int)
    returns (w': World, ghost e: Ending)
    requires Safe(w) && c.Ok()
    ensures Achieved(c, at, w, w', e)
    ensures Safe(w') && (!c.Pause? ==> BystandersKept(w, w'))
    ensures Happened(c, w, w', e, maxAgeDays, span)
  {
    hide Safe, Holds, BuildPromise, PrunePromise, ParentClosed, OneGap, Lost, BuildEffect, Pruned, ToKeep, OrderCovers;
    hide AfterDeleting, BystandersKept, LacksOnly, Passed, TemplateRecent, RequestedKey, KeepsChains, CanFinish;
    hide Acceptable, Achieved;
    var incus := new Incus(w, at.deletes, at.honest, at.able);
    var b := new Builder(incus);
    var cut := 0;
    match c {
      case Pause =>
        w' := Rest(w);
        e := Paused;
        PauseAchieved(at, w, w');
      case BuildCommand(settings, req) =>
        var r := Build(b, settings, req, at.primed, span);
        cut := Last(at, incus.trace);
        w' := incus.trace[cut];
        if r.Ran? {
          RanToPlan(w, incus.world, settings, req, r);
        }
        if ParentClosed(w) {
          GapUnderPromise(w, w', settings, req, span);
        }
        ghost var actor := StoodAt(b, w, settings, req, span, cut);
        e := BuildEnded(if cut == |incus.trace| - 1 then Some(r) else None, LostKey(w, w'), actor);
        BuildAchieved(settings, req, at, w, w', r, cut == |incus.trace| - 1, e.gap, actor);
      case PruneCommand(settings, source, keepGenerations, all) =>
        ghost var pace := Some(Pace(CeilingOf(maxAgeDays), span, w.now));
        var ok, keep, pin, order := Prune(b, settings, source, keepGenerations, all, pace);
        cut := Last(at, incus.trace);
        w' := incus.trace[cut];
        assert SomewhereIn(w, w', order);
        ghost var n: nat :| n <= |order| && AfterDeleting(w, w', order, n);
        e := PruneEnded(pin, keep, order, n);
        PruneAchieved(settings, source, keepGenerations, all, at, w, w', pin, keep, order, n);
    }
    SafeStep(c, w, w', e, maxAgeDays, span);
  }

  /** Any sequence of builds and prunes, with pauses anywhere, each of which may be killed after any of
      its commands: the next process starts from whatever world that left. Entries stay true, and
      bystanders untouched but in pauses. The cache stays closed exactly as long as every ending keeps it
      so, which the ending of a build that uses the cache always does. The generations of stages are
      never exceeded, nor is the global one while nothing lowers it. Content keeps its pace while every
      build checks ages and every build and prune takes no longer than `span`. */
  method Lifetime(initial: World, commands: seq<Command>, settings: seq<Setting>, ghost maxAgeDays: nat,
                  ghost span: int)
    returns (final: World, ghost worlds: seq<World>, ghost endings: seq<Ending>)
    requires Safe(initial) && (forall c :: c in commands ==> c.Ok()) && |settings| == |commands|
    ensures Life(worlds, commands, endings, maxAgeDays, span) && worlds[0] == initial && worlds[|commands|] == final
    ensures Safe(final)
    ensures forall i :: 0 <= i < |commands| ==>
              Achieved(commands[i], settings[i], worlds[i], worlds[i + 1], endings[i])
    ensures forall i :: 0 <= i < |commands| && !commands[i].Pause? ==> BystandersKept(worlds[i], worlds[i + 1])
    ensures (forall i :: 0 <= i < |commands| && commands[i].Pause? ==> BystandersKept(worlds[i], worlds[i + 1]))
            ==> BystandersKept(initial, final)
    ensures (forall i :: 0 <= i <= |commands| ==> ParentClosed(worlds[i]))
            <==> ParentClosed(initial)
                 && forall i :: 0 <= i < |commands| ==> StaysClosed(commands[i], worlds[i], endings[i])
    ensures NoneNewer(initial, initial.manifest, OfStages) ==> NoneNewer(final, final.manifest, OfStages)
    ensures NoneNewer(initial, initial.manifest, OfAll)
            && (forall i :: 0 <= i < |commands| ==> LowersNothing(commands[i], worlds[i]))
            ==> NoneNewer(final, final.manifest, OfAll)
    ensures Paced(initial, CeilingOf(maxAgeDays), span)
            && (forall i :: 0 <= i < |commands| ==>
                  Checked(commands[i], worlds[i], maxAgeDays) && OnTime(commands[i], worlds[i], worlds[i + 1], span))
            ==> Paced(final, CeilingOf(maxAgeDays), span)
  {
    hide Safe, BystandersKept, ParentClosed, NoneNewer, Paced, Happened, StaysClosed, LowersNothing, Checked, OnTime;
    hide Achieved;
    final, worlds, endings := initial, [initial], [];
    for n := 0 to |commands|
      invariant |worlds| == n + 1 && |endings| == n && worlds[0] == initial && worlds[n] == final && Safe(final)
      invariant forall i :: 0 <= i < n ==>
                  Happened(commands[i], worlds[i], worlds[i + 1], endings[i], maxAgeDays, span)
      invariant forall i :: 0 <= i < n ==>
                  Achieved(commands[i], settings[i], worlds[i], worlds[i + 1], endings[i])
      invariant forall i :: 0 <= i < n && !commands[i].Pause? ==> BystandersKept(worlds[i], worlds[i + 1])
    {
      ghost var e;
      final, e := Perform(final, commands[n], settings[n], maxAgeDays, span);
      worlds, endings := worlds + [final], endings + [e];
    }
    LifeIsSafe(worlds, commands, endings, maxAgeDays, span, |commands|);
    LifeClosedExact(worlds, commands, endings, maxAgeDays, span, |commands|);
    LifeKeepsBounds(worlds, commands, endings, maxAgeDays, span, |commands|);
    if Paced(initial, CeilingOf(maxAgeDays), span)
       && forall i :: 0 <= i < |commands| ==>
            Checked(commands[i], worlds[i], maxAgeDays) && OnTime(commands[i], worlds[i], worlds[i + 1], span) {
      LifeKeepsPace(worlds, commands, endings, maxAgeDays, span, |commands|);
    }
  }
}
