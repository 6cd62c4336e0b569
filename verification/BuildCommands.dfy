/** The two commands that touch the cache, `image build` and `image cache prune`, and any
    sequence of them with crashes in between. */
module BuildCommands {
  import opened Prelude
  import opened StageKeys
  import opened History
  import opened Host
  import opened BuildPlan
  import opened CacheInvariant
  import opened RunOutcomes
  import opened ActorSteps
  import opened ImageBuilder

  /** What the builder reads from the packaged guest directory and its environment. */
  datatype Settings = Settings(
    stages: seq<Stage>, helpers: seq<string>, uid: int, gid: int, allow: seq<string>, maxAgeDays: nat)
  {
    predicate Ok() {
      Loaded(stages) && |helpers| == |HELPER_FILES| && maxAgeDays >= 1
    }
  }

  datatype Request = Request(
    alias: string, source: string, refresh: bool, refreshFrom: Option<string>, noCache: bool,
    generation: Option<int>, allowStale: bool, publish: bool, dryRun: bool, keep: bool)

  function InputsFor(settings: Settings, manifest: Manifest, pin: Pin): BuildInputs {
    BuildInputs(pin.fingerprint, pin.architecture, settings.uid, settings.gid, settings.stages,
                settings.helpers, settings.allow, manifest.generation, manifest.stageGenerations)
  }

  predicate StageNamed(stages: seq<Stage>, name: string) {
    exists i :: 0 <= i < |stages| && stages[i].name == name
  }

  /** The request names no negative generation and only a stage that exists. */
  predicate Acceptable(settings: Settings, req: Request) {
    && (req.generation.Some? ==> req.generation.value >= 0)
    && (req.refreshFrom.Some? ==> StageNamed(settings.stages, req.refreshFrom.value))
  }

  /** The manifest with the request's generation, refresh and stage refresh applied. */
  function Bumped(m: Manifest, req: Request): Manifest {
    var g := if req.generation.Some? then req.generation.value else m.generation;
    m.(generation := if req.refresh then g + 1 else g,
       stageGenerations :=
         if req.refreshFrom.Some? then
           m.stageGenerations[req.refreshFrom.value := GenerationOf(m, req.refreshFrom.value) + 1]
         else m.stageGenerations)
  }

  /** The plan follows from the saved manifest, the settings and the request. Only the source
      image, when it has to be resolved, comes from outside. */
  ghost predicate Planned(m: Manifest, settings: Settings, req: Request, plan: Plan) {
    && plan.alias == req.alias && plan.source == req.source && plan.noCache == req.noCache
    && plan.maxAgeDays == settings.maxAgeDays
    && plan.manifest == Bumped(m, req).(sources := plan.manifest.sources)
    && plan.inputs == InputsFor(settings, plan.manifest, plan.pin)
    && (if req.source in m.sources && !req.refresh
        then plan.pin == m.sources[req.source] && plan.manifest.sources == m.sources
        else plan.manifest.sources == m.sources[req.source := plan.pin])
    && (plan.dirty <==> || (req.generation.Some? && req.generation.value != m.generation)
                        || req.refresh || req.refreshFrom.Some? || req.source !in m.sources)
  }

  method PinSource(incus: Incus, m: Manifest, source: string, refresh: bool)
    returns (ok: bool, pin: Pin, sources: map<string, Pin>, resolved: bool)
    ensures ok && source in m.sources && !refresh ==> pin == m.sources[source] && sources == m.sources && !resolved
    ensures ok && !(source in m.sources && !refresh) ==> sources == m.sources[source := pin] && resolved
    ensures incus.able ==> ok
  {
    if source in m.sources && !refresh {
      return true, m.sources[source], m.sources, false;
    }
    var fingerprint: string := *;
    var architecture: string := *;
    ok := incus.Query();
    pin := Pin(fingerprint, architecture);
    sources := m.sources[source := pin];
    resolved := true;
  }

  /** The steps of a plan, on the no-op path and on the listing path. */
  ghost predicate StepsMade(w: World, inputs: BuildInputs, keys: seq<StageKey>, noop: bool, noCache: bool,
                            entries: seq<CacheEntry>, steps: seq<PlanStep>)
  {
    && |keys| == |inputs.stages| == |steps|
    && (forall i :: 0 <= i < |keys| ==> keys[i] == StageKeyAt(inputs, i))
    && (noop ==> entries == [] && steps == Ready(keys))
    && (!noop ==> ListingOf(w, entries) && StepsFor(keys, entries, inputs.fingerprint, inputs.allow, noCache, steps))
  }

  function Ready(keys: seq<StageKey>): seq<PlanStep> {
    seq(|keys|, i requires 0 <= i < |keys| => PlanStep(keys[i], true, Published, None))
  }

  lemma PlanMade(w: World, plan: Plan, keys: seq<StageKey>)
    requires Loaded(plan.inputs.stages) && plan.maxAgeDays >= 1
    requires plan.pin == Pin(plan.inputs.fingerprint, plan.inputs.architecture)
    requires plan.publishedKey == PublishedKey(w, plan.alias) && |keys| == |plan.inputs.stages|
    requires StepsMade(w, plan.inputs, keys,
                       !plan.noCache && plan.publishedKey == Some(KeyAt(plan.inputs, |plan.inputs.stages| - 1)),
                       plan.noCache, plan.entries, plan.steps)
    ensures plan.WellFormed() && PlanOf(w, plan)
  {
    var noop := !plan.noCache && plan.publishedKey == Some(KeyAt(plan.inputs, |plan.inputs.stages| - 1));
    forall i | 0 <= i < |plan.steps| ensures plan.steps[i].key == StageKeyAt(plan.inputs, i) {
      if !noop {
        assert StepFor(keys, plan.entries, plan.inputs.fingerprint, plan.inputs.allow, plan.noCache, i, plan.steps[i]);
      }
    }
    assert StepKeys(plan) == keys;
  }

  /** `ImageBuilder.plan`. The no-op path stops before the listing. */
  method MakePlan(incus: Incus, settings: Settings, req: Request) returns (plan: Option<Plan>)
    requires settings.Ok() && WellStamped(incus.world)
    ensures plan.Some? ==> Acceptable(settings, req)
    ensures plan.Some? ==> && plan.value.WellFormed() && PlanOf(incus.world, plan.value)
                           && Planned(incus.world.manifest, settings, req, plan.value)
                           && plan.value.now == incus.world.now
    ensures incus.able && Acceptable(settings, req) ==> plan.Some?
  {
    hide StepsFor, ListingOf, WellStamped, PlanOf, Loaded, KeyAt;
    var saved := incus.world.manifest;
    if !Acceptable(settings, req) {
      return None;
    }
    var ok, pin, sources, resolved := PinSource(incus, saved, req.source, req.refresh);
    if !ok {
      return None;
    }
    var manifest := Bumped(saved, req).(sources := sources);
    var dirty := (req.generation.Some? && req.generation.value != saved.generation)
                 || req.refresh || req.refreshFrom.Some? || resolved;
    var inputs := InputsFor(settings, manifest, pin);
    var keys := ComputeStageKeys(inputs);
    NonEmptyChain(settings.stages);
    var published := PublishedKey(incus.world, req.alias);
    var entries: seq<CacheEntry> := [];
    var steps: seq<PlanStep>;
    if !req.noCache && published == Some(keys[|keys| - 1].key) {
      steps := Ready(keys);
    } else {
      ok, entries := ListEntries(incus);
      if !ok {
        return None;
      }
      steps := PlanSteps(keys, entries, pin.fingerprint, inputs.allow, req.noCache);
    }
    var made := Plan(req.alias, req.source, pin, inputs, steps, published, manifest, req.noCache,
                     incus.world.now, settings.maxAgeDays, dirty, entries);
    OneStepEach(keys, entries, pin.fingerprint, inputs.allow, req.noCache, steps);
    PlanMade(incus.world, made, keys);
    return Some(made);
  }

  lemma NonEmptyChain(stages: seq<Stage>)
    requires Loaded(stages)
    ensures |stages| > 0
  {
  }

  lemma OneStepEach(keys: seq<StageKey>, entries: seq<CacheEntry>, source: string, allow: seq<string>,
                    noCache: bool, steps: seq<PlanStep>)
    requires steps == Ready(keys) || StepsFor(keys, entries, source, allow, noCache, steps)
    ensures |steps| == |keys|
  {
  }

  // ---- refreshing -----------------------------------------------------------------------------------

  predicate KeepsGeneration(req: Request, m: Manifest) {
    req.generation.Some? ==> m.generation <= req.generation.value
  }

  lemma BumpedRises(m: Manifest, settings: Settings, req: Request, plan: Plan)
    requires Planned(m, settings, req, plan)
    ensures Rising(m, plan.manifest, OfStages)
    ensures KeepsGeneration(req, m) ==> Rising(m, plan.manifest, OfAll)
    ensures plan.inputs.generation == plan.manifest.generation
    ensures plan.inputs.stageGenerations == plan.manifest.stageGenerations
  {
  }

  lemma {:induction false} WithinDown(inputs: BuildInputs, i: nat, j: nat, m: Manifest, extent: Extent)
    requires i <= j < |inputs.stages| && Within(KeyAt(inputs, j), m, extent)
    ensures Within(KeyAt(inputs, i), m, extent)
  {
    if i < j {
      assert KeyAt(inputs, j).parent == KeyAt(inputs, j - 1);
      WithinDown(inputs, i, j - 1, m, extent);
    }
  }

  /** A stage whose epoch is past the manifest is neither cached nor under a published image,
      and neither is any stage after it. */
  lemma BeyondManifest(w: World, inputs: BuildInputs, s: nat, j: nat, extent: Extent)
    requires NoneNewer(w, w.manifest, extent) && s <= j < |inputs.stages|
    requires !Within(KeyAt(inputs, s), w.manifest, extent)
    ensures !Cached(w, KeyAt(inputs, j))
    ensures forall alias :: PublishedKey(w, alias) != Some(KeyAt(inputs, j))
  {
    if Within(KeyAt(inputs, j), w.manifest, extent) {
      WithinDown(inputs, s, j, w.manifest, extent);
    }
  }

  /** Hits end at the first stage that has no entry. */
  lemma HitsEndAt(w: World, plan: Plan, s: nat)
    requires PlanOf(w, plan) && !plan.IsNoop() && s < |plan.steps| && !Cached(w, KeyAt(plan.inputs, s))
    ensures plan.FirstBuild() <= s
  {
    if s < plan.FirstBuild() {
      HitsAreEntries(w, plan, plan.FirstBuild());
    }
  }

  /** The first key of the chain that a request asks for. */
  function FirstKey(settings: Settings, m: Manifest, req: Request, pin: Pin): Key
    requires |settings.stages| > 0
  {
    KeyAt(InputsFor(settings, Bumped(m, req), pin), 0)
  }

  /** A build reuses nothing exactly when the cache is not in use or the first stage has no entry. */
  lemma ReusesNothingExact(w: World, settings: Settings, req: Request, plan: Plan)
    requires PlanOf(w, plan) && Planned(w.manifest, settings, req, plan) && !plan.IsNoop()
    ensures |settings.stages| > 0
    ensures plan.FirstBuild() == 0 <==> req.noCache || !Cached(w, FirstKey(settings, w.manifest, req, plan.pin))
  {
    assert plan.inputs == InputsFor(settings, Bumped(w.manifest, req), plan.pin);
    if plan.FirstBuild() > 0 {
      HitsAreEntries(w, plan, plan.FirstBuild());
    } else if !plan.noCache {
      FirstMissNotCached(w, plan);
    }
  }

  /** When `--refresh` really refreshes: nothing is reused, and nothing published satisfies it,
      exactly when the cache is not in use, or neither the image nor the cache has the new keys. It
      is so as long as no generation has been lowered. */
  lemma RefreshReusesNothing(w: World, settings: Settings, req: Request, plan: Plan)
    requires PlanOf(w, plan) && Planned(w.manifest, settings, req, plan) && req.refresh
    ensures |settings.stages| > 0
    ensures !plan.IsNoop() && plan.FirstBuild() == 0 <==>
              req.noCache
              || (PublishedKey(w, req.alias) != Some(plan.BuildKey())
                  && !Cached(w, FirstKey(settings, w.manifest, req, plan.pin)))
    ensures NoneNewer(w, w.manifest, OfAll) && KeepsGeneration(req, w.manifest)
            ==> !plan.IsNoop() && plan.FirstBuild() == 0
  {
    if !plan.IsNoop() {
      ReusesNothingExact(w, settings, req, plan);
    }
    if NoneNewer(w, w.manifest, OfAll) && KeepsGeneration(req, w.manifest) {
      KeyAtShaped(plan.inputs, 0);
      assert !Within(KeyAt(plan.inputs, 0), w.manifest, OfAll);
      BeyondManifest(w, plan.inputs, 0, |plan.inputs.stages| - 1, OfAll);
      BeyondManifest(w, plan.inputs, 0, 0, OfAll);
      HitsEndAt(w, plan, 0);
    }
  }

  /** The request bumps the generation of stage `s`, which floats, and nothing else. */
  predicate RefreshesFrom(req: Request, inputs: BuildInputs, s: nat)
    requires s < |inputs.stages|
  {
    && !req.refresh && req.generation.None? && !req.noCache
    && req.refreshFrom == Some(inputs.stages[s].name) && Floating(inputs.stages[s].name)
  }

  lemma EarlierKeysKept(m: Manifest, settings: Settings, req: Request, plan: Plan, s: nat)
    requires plan.WellFormed() && Planned(m, settings, req, plan)
    requires s < |plan.inputs.stages| && RefreshesFrom(req, plan.inputs, s)
    ensures settings.stages == plan.inputs.stages
    ensures forall i :: 0 <= i < s ==> KeyAt(plan.inputs, i) == KeyAt(InputsFor(settings, m, plan.pin), i)
    ensures !Within(KeyAt(plan.inputs, s), m, OfStages)
  {
    var before := InputsFor(settings, m, plan.pin);
    forall i | 0 <= i < s ensures KeyAt(plan.inputs, i) == KeyAt(before, i) {
      KeyAtExact(plan.inputs, before, i);
    }
  }

  /** The hits reach as far as the entries do. */
  lemma HitsReach(w: World, plan: Plan, s: nat)
    requires PlanOf(w, plan) && !plan.IsNoop() && !plan.noCache && plan.FirstBuild() <= s < |plan.steps|
    ensures (forall i :: 0 <= i < s ==> Cached(w, KeyAt(plan.inputs, i))) <==> plan.FirstBuild() == s
  {
    HitsAreEntries(w, plan, plan.FirstBuild());
    if plan.FirstBuild() < s {
      FirstMissNotCached(w, plan);
    }
  }

  lemma PlanShape(w: World, settings: Settings, req: Request, plan: Plan)
    requires PlanOf(w, plan) && Planned(w.manifest, settings, req, plan)
    ensures plan.WellFormed() && |plan.steps| == |plan.inputs.stages| > 0 && plan.noCache == req.noCache
    ensures (forall alias :: PublishedKey(w, alias) != Some(KeyAt(plan.inputs, |plan.inputs.stages| - 1)))
            ==> !plan.IsNoop()
  {
  }

  /** `--refresh-from S` for a floating stage: the stages before S keep their keys and their hits,
      S and every stage after it are rebuilt. No command ever lowers the generation of a stage, so
      the bound that this needs is never lost. */
  lemma RefreshFromRebuildsTheRest(w: World, settings: Settings, req: Request, plan: Plan, s: nat)
    requires PlanOf(w, plan) && Planned(w.manifest, settings, req, plan) && NoneNewer(w, w.manifest, OfStages)
    requires s < |plan.inputs.stages| && RefreshesFrom(req, plan.inputs, s)
    ensures !plan.IsNoop() && plan.FirstBuild() <= s
    ensures forall i :: 0 <= i < s ==> KeyAt(plan.inputs, i) == KeyAt(InputsFor(settings, w.manifest, plan.pin), i)
    ensures (forall i :: 0 <= i < s ==> Cached(w, KeyAt(plan.inputs, i))) <==> plan.FirstBuild() == s
  {
    PlanShape(w, settings, req, plan);
    EarlierKeysKept(w.manifest, settings, req, plan, s);
    hide PlanOf, Planned, NoneNewer, Within, KeyAt, Loaded, Cached;
    BeyondManifest(w, plan.inputs, s, |plan.inputs.stages| - 1, OfStages);
    BeyondManifest(w, plan.inputs, s, s, OfStages);
    HitsEndAt(w, plan, s);
    HitsReach(w, plan, s);
  }

  /** `--refresh-from S` changes the build key exactly when S is a floating stage. */
  lemma RefreshFromEffective(m: Manifest, settings: Settings, req: Request, pin: Pin, s: nat)
    requires settings.Ok() && s < |settings.stages| && req.refreshFrom == Some(settings.stages[s].name)
    requires !req.refresh && req.generation.None?
    ensures var n := |settings.stages|;
            KeyAt(InputsFor(settings, Bumped(m, req), pin), n - 1) == KeyAt(InputsFor(settings, m, pin), n - 1)
            <==> !Floating(settings.stages[s].name)
  {
    var a, b := InputsFor(settings, Bumped(m, req), pin), InputsFor(settings, m, pin);
    var n := |settings.stages|;
    KeyAtExact(a, b, n - 1);
    assert SameStage(a, b, s) <==> !Floating(settings.stages[s].name);
    forall j | 0 <= j < n && j != s ensures SameStage(a, b, j) {
    }
  }

  function EntryInstance(key: Key, created: int): Instance
    requires key.Link?
  {
    Instance(Denotes(key), Off, false, false, map[], true, Some(StampsFor(key, created)), [created, created])
  }

  /** The plan of a build that finds its image published already. */
  function PublishedPlan(settings: Settings, m: Manifest, pin: Pin, req: Request, now: int): Plan
    requires |settings.stages| > 0
  {
    var manifest := Bumped(m, req);
    var inputs := InputsFor(settings, manifest, pin);
    var n := |settings.stages|;
    Plan(req.alias, req.source, pin, inputs,
         seq(n, i requires 0 <= i < n => PlanStep(StageKeyAt(inputs, i), true, Published, None)),
         Some(KeyAt(inputs, n - 1)), manifest, false, now, settings.maxAgeDays, true, [])
  }

  lemma PublishedPlanIs(w: World, settings: Settings, pin: Pin, req: Request)
    requires settings.Ok() && !req.noCache && !req.refresh && req.generation.Some? && req.refreshFrom.None?
    requires req.generation.value != w.manifest.generation
    requires req.source in w.manifest.sources && w.manifest.sources[req.source] == pin
    requires PublishedKey(w, req.alias)
             == Some(KeyAt(InputsFor(settings, Bumped(w.manifest, req), pin), |settings.stages| - 1))
    ensures var plan := PublishedPlan(settings, w.manifest, pin, req, w.now);
            plan.WellFormed() && PlanOf(w, plan) && plan.IsNoop() && Planned(w.manifest, settings, req, plan)
  {
    var plan := PublishedPlan(settings, w.manifest, pin, req, w.now);
    var keys := seq(|settings.stages|, i requires 0 <= i < |settings.stages| => StageKeyAt(plan.inputs, i));
    assert plan.steps == Ready(keys);
    PlanMade(w, plan, keys);
  }

  lemma AbandonedIsHit(settings: Settings, m: Manifest, pin: Pin, again: Request, w: World, plan: Plan)
    requires settings.Ok() && |settings.stages| > 0 && w.manifest == m
    requires again.refresh && again.generation.None? && again.refreshFrom.None? && !again.noCache
    requires Cached(w, KeyAt(InputsFor(settings, m.(generation := m.generation + 1), pin), 0))
    requires PublishedKey(w, again.alias) == Some(KeyAt(InputsFor(settings, m, pin), |settings.stages| - 1))
    requires PlanOf(w, plan) && Planned(m, settings, again, plan) && plan.pin == pin
    ensures !plan.IsNoop() && plan.FirstBuild() > 0
  {
    var earlier, later := InputsFor(settings, m, pin), InputsFor(settings, m.(generation := m.generation + 1), pin);
    var n := |settings.stages|;
    assert plan.inputs == later;
    KeyAtShaped(later, 0);
    KeyAtExact(later, earlier, n - 1);
    assert !SameStage(later, earlier, 0);
    if !plan.IsNoop() {
      ReusesNothingExact(w, settings, again, plan);
    }
  }

  /** What a refresh that failed after its first stage leaves. */
  lemma AbandonedRefresh(settings: Settings, pin: Pin, m: Manifest, alias: string) returns (w: World)
    requires settings.Ok() && |settings.stages| > 0
    ensures Safe(w) && ParentClosed(w) && NoneNewer(w, w.manifest, OfAll)
    ensures w.manifest == m.(generation := m.generation + 1)
    ensures PublishedKey(w, alias) == Some(KeyAt(InputsFor(settings, m, pin), |settings.stages| - 1))
    ensures forall k :: Cached(w, k) <==> k == KeyAt(InputsFor(settings, w.manifest, pin), 0)
  {
    var earlier, later := InputsFor(settings, m, pin), InputsFor(settings, m.(generation := m.generation + 1), pin);
    var n := |settings.stages|;
    var key, published := KeyAt(later, 0), KeyAt(earlier, n - 1);
    KeyAtShaped(later, 0);
    KeyAtShaped(earlier, n - 1);
    var image := Image(Some(published), Denotes(published));
    w := World(map[CacheName(key) := EntryInstance(key, 0)], None, map[alias := image],
               m.(generation := m.generation + 1), 0);
    KeyAtWithin(later, 0, w.manifest);
    KeyAtWithin(earlier, n - 1, m);
    WithinRises(published, m, w.manifest, OfAll);
  }

  /** A refresh that failed after its first stage has left that stage's entry and its generation;
      going back to the generation of the published image is a no-op that saves the manifest; and
      the refresh after that hands out the abandoned generation again, with a hit to start from. */
  lemma RollbackThenRefreshReuses(settings: Settings, pin: Pin, m: Manifest, back: Request, again: Request)
    returns (w0: World, w: World)
    requires settings.Ok() && |settings.stages| > 0 && m.generation >= 0
    requires back.source in m.sources && m.sources[back.source] == pin
    requires back.generation == Some(m.generation) && !back.refresh && back.refreshFrom.None? && !back.noCache
    requires !back.dryRun
    requires again.refresh && again.generation.None? && again.refreshFrom.None? && !again.noCache
    requires again.alias == back.alias && again.source == back.source
    ensures Safe(w0) && ParentClosed(w0) && NoneNewer(w0, w0.manifest, OfAll)
    ensures w0.manifest == m.(generation := m.generation + 1)
    ensures BuildEffect(w0, w, settings, back, NothingToDo(PublishedPlan(settings, w0.manifest, pin, back, w0.now)))
    ensures Safe(w) && ParentClosed(w) && w.manifest == m && !NoneNewer(w, m, OfAll)
    ensures forall plan :: PlanOf(w, plan) && Planned(w.manifest, settings, again, plan) && plan.pin == pin ==>
              !plan.IsNoop() && plan.FirstBuild() > 0
  {
    w0 := AbandonedRefresh(settings, pin, m, back.alias);
    w := w0.(manifest := m);
    var later := InputsFor(settings, w0.manifest, pin);
    KeyAtShaped(later, 0);
    assert Cached(w0, KeyAt(later, 0)) && !Within(KeyAt(later, 0), m, OfAll);
    assert Bumped(w0.manifest, back) == m;
    PublishedPlanIs(w0, settings, pin, back);
    hide *;
    forall plan | PlanOf(w, plan) && Planned(w.manifest, settings, again, plan) && plan.pin == pin
      ensures !plan.IsNoop() && plan.FirstBuild() > 0
    {
      AbandonedIsHit(settings, m, pin, again, w, plan);
    }
  }

  // ---- building ---------------------------------------------------------------------------------------

  datatype BuildResult =
    | NotPlanned
    | DryRun(plan: Plan)
    | NothingToDo(plan: Plan)
    | NotSaved(plan: Plan)
    | NotPrimed(plan: Plan)
    | Ran(plan: Plan, report: RunReport)

  /** A refresh may skip the age check because it reuses nothing; `--allow-stale` may not. */
  ghost predicate KeepsPace(w: World, settings: Settings, req: Request, span: int) {
    && Paced(w, CeilingOf(settings.maxAgeDays), span)
    && !req.allowStale
    && (req.refresh ==> NoneNewer(w, w.manifest, OfAll) && KeepsGeneration(req, w.manifest))
  }

  /** A key of the chain that a request asks for, with the pin that is there or, if it has to be
      resolved, some pin. */
  ghost predicate RequestedKey(settings: Settings, m: Manifest, req: Request, key: Key) {
    exists pin :: PinFits(m, req, pin) && OnChain(InputsFor(settings, Bumped(m, req), pin), key)
  }

  predicate PinFits(m: Manifest, req: Request, pin: Pin) {
    req.source in m.sources && !req.refresh ==> pin == m.sources[req.source]
  }

  lemma PlannedKeysRequested(m: Manifest, settings: Settings, req: Request, plan: Plan)
    requires Planned(m, settings, req, plan)
    ensures forall j :: 0 <= j < |plan.inputs.stages| ==> RequestedKey(settings, m, req, KeyAt(plan.inputs, j))
  {
    hide KeyAt;
    assert PinFits(m, req, plan.pin) && plan.inputs == InputsFor(settings, Bumped(m, req), plan.pin);
    forall j | 0 <= j < |plan.inputs.stages| ensures RequestedKey(settings, m, req, KeyAt(plan.inputs, j)) {
      assert OnChain(plan.inputs, KeyAt(plan.inputs, j));
    }
  }

  /** The widest bound on generations that holds, if the manifest keeps its own. */
  ghost function BoundOf(w: World, keeps: bool): Option<Extent> {
    if keeps && NoneNewer(w, w.manifest, OfAll) then Some(OfAll)
    else if NoneNewer(w, w.manifest, OfStages) then Some(OfStages)
    else None
  }

  /** What a build started in `w` keeps after each of its commands: always what is safe, and
      closure, generations and pace under their conditions. With `--no-cache` a closed cache may
      have one gap, where an entry is being replaced. */
  ghost function BuildPromise(w: World, settings: Settings, req: Request, span: int): Promise {
    Promise(!req.noCache && ParentClosed(w), ParentClosed(w),
            (iset key | RequestedKey(settings, w.manifest, req, key)),
            BoundOf(w, KeepsGeneration(req, w.manifest)),
            if KeepsPace(w, settings, req, span)
            then Some(Pace(CeilingOf(settings.maxAgeDays), span, w.now)) else None,
            w)
  }

  lemma PromiseFits(w: World, settings: Settings, req: Request, span: int, plan: Plan)
    requires settings.Ok() && PlanOf(w, plan) && Planned(w.manifest, settings, req, plan) && plan.now == w.now
    ensures var p := BuildPromise(w, settings, req, span);
            && Allows(p, plan)
            && (p.bound.Some? ==> Rising(w.manifest, plan.manifest, p.bound.value))
            && (p.pace.Some? && (req.allowStale || req.refresh) ==> plan.ReusedEntry().None?)
            && (p.pace.Some? ==> plan.now <= w.now)
            && (!req.noCache && ParentClosed(w) ==> p.closed)
  {
    var p := BuildPromise(w, settings, req, span);
    BumpedRises(w.manifest, settings, req, plan);
    PlannedKeysRequested(w.manifest, settings, req, plan);
    if p.pace.Some? && req.refresh {
      RefreshReusesNothing(w, settings, req, plan);
    }
  }

  lemma PromiseStarts(w: World, settings: Settings, req: Request, span: int)
    requires Safe(w)
    ensures Holds(BuildPromise(w, settings, req, span), w)
    ensures var p := BuildPromise(w, settings, req, span); p.origin == w && (p.holed ==> Untouched(p.origin, w))
  {
    if ParentClosed(w) {
      IntactHasNoGap(w, w, BuildPromise(w, settings, req, span).among);
    }
  }

  /** Nothing to save means nothing changed. */
  lemma CleanManifest(m: Manifest, settings: Settings, req: Request, plan: Plan)
    requires Planned(m, settings, req, plan) && !plan.dirty
    ensures plan.manifest == m
  {
  }

  /** What `image build` did to the world. */
  ghost predicate BuildEffect(w0: World, w: World, settings: Settings, req: Request, r: BuildResult) {
    match r
    case NotPlanned => w == w0
    case DryRun(plan) =>
      && req.dryRun && w == w0 && plan.WellFormed() && PlanOf(w0, plan) && Planned(w0.manifest, settings, req, plan)
    case NothingToDo(plan) =>
      && !req.dryRun
      && plan.WellFormed() && PlanOf(w0, plan) && Planned(w0.manifest, settings, req, plan) && plan.IsNoop()
      && w == w0.(manifest := plan.manifest, now := w.now)
    case NotSaved(plan) =>
      && !req.dryRun
      && plan.WellFormed() && PlanOf(w0, plan) && Planned(w0.manifest, settings, req, plan) && plan.IsNoop()
      && plan.dirty && w == w0.(now := w.now)
    case NotPrimed(plan) =>
      && !req.dryRun && plan.WellFormed()
      && w == w0 && PlanOf(w0, plan) && Planned(w0.manifest, settings, req, plan) && !plan.IsNoop()
      && plan.FirstBuild() < |plan.steps|
    case Ran(plan, report) =>
      && !req.dryRun
      && plan.WellFormed() && PlanOf(w0, plan) && Planned(w0.manifest, settings, req, plan) && !plan.IsNoop()
      && plan.now == w0.now
      && CacheOutcome(w0, w, plan, req.publish, report) && AclOutcome(w0, w, plan, req.keep, report)
      && (report.Raised? ==> StrandedAfter(w, plan, Some(report.failure), report.rebuilt))
      && (RefusedAsStale(report) <==> plan.Stale() && !(req.allowStale || req.refresh))
  }

  /** `image build`, under the lock. Every command of the run, not only the last, leaves the
      host as promised. `primed`: the caller grants the privilege that an ACL takes, which is asked
      for only if there is something to build. */
  method Build(b: Builder, settings: Settings, req: Request, primed: bool, ghost span: int) returns (r: BuildResult)
    requires settings.Ok() && Safe(b.incus.world)
    requires |b.incus.trace| > 0 && b.incus.trace[|b.incus.trace| - 1] == b.incus.world
    modifies b, b.incus
    ensures b.Recorded(BuildPromise(old(b.incus.world), settings, req, span), old(|b.incus.trace|) - 1)
    ensures BuildEffect(old(b.incus.world), b.incus.world, settings, req, r)
    ensures r.Ran? && AllStages(r.report) ==>
              TemplateRecent(BuildPromise(old(b.incus.world), settings, req, span), r.plan, b.incus.world)
    ensures r.Ran? && r.report.Raised? && !req.noCache && ParentClosed(old(b.incus.world))
            ==> !NameTaken(Some(r.report.failure))
    ensures b.incus.honest && r.Ran? ==>
              (r.report.Raised? && r.report.failure.AclFailed? && !r.report.failure.step.RulesStep? ==>
                 b.incus.world.acl == old(b.incus.world).acl)
    ensures req.dryRun ==> (r.DryRun? || r.NotPlanned?) && b.incus.world == old(b.incus.world)
    ensures b.incus.able && Acceptable(settings, req) ==> !r.NotPlanned? && (req.dryRun ==> r.DryRun?)
    ensures b.incus.able && Acceptable(settings, req) && !req.dryRun && primed ==> r.NothingToDo? || r.Ran?
    ensures r.NotPrimed? ==> !primed
    ensures r.Ran? && !primed ==> r.plan.FirstBuild() == |r.plan.steps|
    ensures !r.NotPlanned? ==>
              && (req.generation.Some? ==> req.generation.value >= 0)
              && (req.refreshFrom.Some? ==>
                    exists i :: 0 <= i < |settings.stages| && settings.stages[i].name == req.refreshFrom.value)
    ensures b.incus.able && b.incus.deletes && r.Ran? ==>
              (r.report.Finished? <==> CanFinish(old(b.incus.world), r.plan, req.allowStale || req.refresh))
  {
    hide *;
    ghost var w0 := b.incus.world;
    ghost var p := BuildPromise(w0, settings, req, span);
    ghost var from := |b.incus.trace| - 1;
    SafeIsWellStamped(w0);
    PromiseStarts(w0, settings, req, span);
    b.run := [Moment(w0, Planning, true)];
    RecordingStarts(b, p);
    AcceptableIs(settings, req);
    var made := MakePlan(b.incus, settings, req);
    if made.None? {
      r := NotPlanned;
      NothingHappened(w0, settings, req, r);
      return;
    }
    var plan := made.value;
    PromiseFits(w0, settings, req, span, plan);
    if req.dryRun {
      r := DryRun(plan);
      NothingHappened(w0, settings, req, r);
      return;
    }
    if plan.IsNoop() {
      if plan.dirty {
        var saved := b.SaveManifest(plan.manifest, p, from);
        if !saved {
          r := NotSaved(plan);
          SaveFailedHappened(w0, b.incus.world, settings, req, plan);
          return;
        }
      } else {
        CleanManifest(w0.manifest, settings, req, plan);
      }
      r := NothingToDo(plan);
      NoopHappened(w0, b.incus.world, settings, req, plan);
      return;
    }
    FirstBuildIsHitPrefix(plan);
    if !primed && HitPrefix(plan.steps) < |plan.steps| {
      r := NotPrimed(plan);
      NothingHappened(w0, settings, req, r);
      return;
    }
    var report := b.Run(plan, req.publish, req.allowStale || req.refresh, req.keep, p, from);
    RunHappened(w0, b.incus.world, settings, req, plan, report);
    return Ran(plan, report);
  }

  lemma AcceptableIs(settings: Settings, req: Request)
    ensures Acceptable(settings, req) ==>
              && (req.generation.Some? ==> req.generation.value >= 0)
              && (req.refreshFrom.Some? ==>
                    exists i :: 0 <= i < |settings.stages| && settings.stages[i].name == req.refreshFrom.value)
  {
  }

  lemma SafeIsWellStamped(w: World)
    requires Safe(w)
    ensures WellStamped(w)
  {
  }

  lemma RecordingStarts(b: Builder, p: Promise)
    requires |b.incus.trace| > 0 && b.incus.trace[|b.incus.trace| - 1] == b.incus.world && Holds(p, b.incus.world)
    requires b.run == [Moment(b.incus.world, Planning, true)] && p.origin == b.incus.world
    ensures b.Recorded(p, |b.incus.trace| - 1) && b.Acting() == Planning
  {
    FollowsFrom(b.incus.trace);
  }

  lemma NothingHappened(w0: World, settings: Settings, req: Request, r: BuildResult)
    requires match r
             case NotPlanned => true
             case DryRun(plan) => req.dryRun && PlanOf(w0, plan) && Planned(w0.manifest, settings, req, plan)
             case NotPrimed(plan) =>
               && !req.dryRun && PlanOf(w0, plan) && Planned(w0.manifest, settings, req, plan) && !plan.IsNoop()
               && plan.FirstBuild() < |plan.steps|
             case _ => false
    ensures BuildEffect(w0, w0, settings, req, r)
  {
  }

  lemma SaveFailedHappened(w0: World, w: World, settings: Settings, req: Request, plan: Plan)
    requires plan.WellFormed() && PlanOf(w0, plan) && Planned(w0.manifest, settings, req, plan) && plan.IsNoop()
    requires plan.dirty && w == w0.(now := w.now)
    requires !req.dryRun
    ensures BuildEffect(w0, w, settings, req, NotSaved(plan))
  {
  }

  lemma NoopHappened(w0: World, w: World, settings: Settings, req: Request, plan: Plan)
    requires plan.WellFormed() && PlanOf(w0, plan) && Planned(w0.manifest, settings, req, plan) && plan.IsNoop()
    requires w == w0.(manifest := plan.manifest, now := w.now)
    requires !req.dryRun
    ensures BuildEffect(w0, w, settings, req, NothingToDo(plan))
  {
  }

  lemma RunHappened(w0: World, w: World, settings: Settings, req: Request, plan: Plan, report: RunReport)
    requires plan.WellFormed() && PlanOf(w0, plan) && Planned(w0.manifest, settings, req, plan) && !plan.IsNoop()
    requires plan.now == w0.now && CacheOutcome(w0, w, plan, req.publish, report)
    requires AclOutcome(w0, w, plan, req.keep, report)
    requires report.Raised? ==> StrandedAfter(w, plan, Some(report.failure), report.rebuilt)
    requires RefusedAsStale(report) <==> plan.Stale() && !(req.allowStale || req.refresh)
    requires !req.dryRun
    ensures BuildEffect(w0, w, settings, req, Ran(plan, report))
  {
  }

  // ---- pruning ----------------------------------------------------------------------------------------

  /** The inputs of the next build, at a generation. */
  function ChainInputs(settings: Settings, m: Manifest, pin: Pin, generation: int): (inputs: BuildInputs)
    ensures inputs.stages == settings.stages
  {
    InputsFor(settings, m.(generation := generation), pin)
  }

  ghost predicate OnChain(inputs: BuildInputs, key: Key) {
    exists i :: 0 <= i < |inputs.stages| && key == KeyAt(inputs, i)
  }

  /** The current generation and up to `previous` earlier ones, none of those below zero. */
  predicate KeptGeneration(current: int, previous: nat, generation: int) {
    generation == current || (0 <= generation && current - previous <= generation < current)
  }

  ghost predicate ToKeep(settings: Settings, m: Manifest, pin: Pin, previous: nat, key: Key) {
    exists generation :: KeptGeneration(m.generation, previous, generation)
                         && OnChain(ChainInputs(settings, m, pin, generation), key)
  }

  method ChainKeys(inputs: BuildInputs) returns (keys: set<Key>)
    ensures forall key :: key in keys <==> OnChain(inputs, key)
  {
    var chain := ComputeStageKeys(inputs);
    keys := {};
    for i := 0 to |chain|
      invariant forall key :: key in keys ==> OnChain(inputs, key)
      invariant forall j :: 0 <= j < i ==> KeyAt(inputs, j) in keys
    {
      assert OnChain(inputs, chain[i].key);
      keys := keys + {chain[i].key};
    }
  }

  /** What is kept, in terms of the generations: the whole chain of the current one, whatever else is asked
      for, and those of up to `previous` earlier ones that are not negative; and nothing else. */
  ghost predicate KeepsChains(settings: Settings, m: Manifest, pin: Pin, previous: nat, keep: set<Key>) {
    && (forall i :: 0 <= i < |settings.stages| ==> KeyAt(InputsFor(settings, m, pin), i) in keep)
    && (forall g: int, i :: 0 <= g && m.generation - previous <= g < m.generation && 0 <= i < |settings.stages| ==>
          KeyAt(InputsFor(settings, m.(generation := g), pin), i) in keep)
    && (forall key :: key in keep ==>
          exists g: int, i ::
            && (g == m.generation || (0 <= g && m.generation - previous <= g < m.generation))
            && 0 <= i < |settings.stages| && key == KeyAt(InputsFor(settings, m.(generation := g), pin), i))
  }

  lemma KeptIsChains(settings: Settings, m: Manifest, pin: Pin, previous: nat, keep: set<Key>)
    requires forall key :: key in keep <==> ToKeep(settings, m, pin, previous, key)
    ensures KeepsChains(settings, m, pin, previous, keep)
  {
    hide KeyAt;
    forall g: int, i | KeptGeneration(m.generation, previous, g) && 0 <= i < |settings.stages|
      ensures KeyAt(InputsFor(settings, m.(generation := g), pin), i) in keep
    {
      var inputs := ChainInputs(settings, m, pin, g);
      assert OnChain(inputs, KeyAt(inputs, i));
    }
    assert m.(generation := m.generation) == m;
    assert KeptGeneration(m.generation, previous, m.generation);
  }

  /** `ImageBuilder.chains`: the union of the current chain and the kept earlier ones. */
  method Chains(settings: Settings, m: Manifest, pin: Pin, previous: nat) returns (keep: set<Key>)
    ensures forall key :: key in keep <==> ToKeep(settings, m, pin, previous, key)
    ensures KeepsChains(settings, m, pin, previous, keep)
  {
    hide OnChain, KeepsChains;
    keep := ChainKeys(ChainInputs(settings, m, pin, m.generation));
    var offset := 1;
    while offset <= previous && m.generation - offset >= 0
      invariant 1 <= offset <= previous + 1
      invariant offset == 1 || m.generation - offset + 1 >= 0
      invariant forall key :: key in keep <==> ToKeep(settings, m, pin, offset - 1, key)
    {
      var generation := m.generation - offset;
      var keys := ChainKeys(ChainInputs(settings, m, pin, generation));
      OneMoreGeneration(settings, m, pin, offset);
      keep := keep + keys;
      offset := offset + 1;
    }
    assert forall generation :: KeptGeneration(m.generation, previous, generation)
                                <==> KeptGeneration(m.generation, offset - 1, generation);
    KeptIsChains(settings, m, pin, previous, keep);
  }

  lemma OneMoreGeneration(settings: Settings, m: Manifest, pin: Pin, offset: nat)
    requires offset > 0 && m.generation - offset >= 0
    ensures forall key :: ToKeep(settings, m, pin, offset, key)
              <==> || ToKeep(settings, m, pin, offset - 1, key)
                   || OnChain(ChainInputs(settings, m, pin, m.generation - offset), key)
  {
    hide OnChain;
    forall generation
      ensures KeptGeneration(m.generation, offset, generation)
              <==> KeptGeneration(m.generation, offset - 1, generation) || generation == m.generation - offset
    {
    }
  }

  /** Every kept chain is closed under `parent`. */
  lemma ToKeepClosed(settings: Settings, m: Manifest, pin: Pin, previous: nat, key: Key)
    requires ToKeep(settings, m, pin, previous, key) && key.Link? && key.parent.Link?
    ensures ToKeep(settings, m, pin, previous, key.parent)
  {
    var generation :| KeptGeneration(m.generation, previous, generation)
                      && OnChain(ChainInputs(settings, m, pin, generation), key);
    var inputs := ChainInputs(settings, m, pin, generation);
    var i :| 0 <= i < |inputs.stages| && key == KeyAt(inputs, i);
    assert key.parent == KeyAt(inputs, i - 1);
    assert OnChain(inputs, key.parent);
  }

  /** The entries that survive: all kept ones as they were, and none of the others. */
  ghost predicate Pruned(w0: World, w: World, keep: set<Key>) {
    && (forall key :: Cached(w, key) <==> Cached(w0, key) && key in keep)
    && (forall key :: Cached(w, key) ==> w.instances[CacheName(key)] == w0.instances[CacheName(key)])
  }

  /** Part of the way there: some of the others may still be around. */
  ghost predicate PartlyPruned(w0: World, w: World, keep: set<Key>) {
    && (forall key :: Cached(w, key) ==> Cached(w0, key) && w.instances[CacheName(key)] == w0.instances[CacheName(key)])
    && (forall key :: Cached(w0, key) && key in keep ==> Cached(w, key))
  }

  /** The entries to delete, in the order of the listing. */
  function DeletionOrder(entries: seq<CacheEntry>, keep: set<Key>): seq<Key> {
    if entries == [] then []
    else
      var last := entries[|entries| - 1].stamps.key;
      DeletionOrder(entries[..|entries| - 1], keep) + if last in keep then [] else [last]
  }

  /** Exactly the entries outside `keep`, each once. */
  ghost predicate OrderCovers(w: World, keep: set<Key>, order: seq<Key>) {
    && (forall i, j :: 0 <= i < j < |order| ==> order[i] != order[j])
    && (forall key :: key in order <==> Cached(w, key) && key !in keep)
  }

  /** The first `n` of the deletions have been done. */
  ghost predicate AfterDeleting(w0: World, w: World, order: seq<Key>, n: nat)
    requires n <= |order|
  {
    forall key :: Cached(w, key) <==> Cached(w0, key) && key !in order[..n]
  }

  ghost predicate SomewhereIn(w0: World, w: World, order: seq<Key>) {
    exists n :: 0 <= n <= |order| && AfterDeleting(w0, w, order, n)
  }

  /** Every world since position `from` is that of some number of deletions in this order. */
  ghost predicate DeletedInOrder(w0: World, trace: seq<World>, from: nat, order: seq<Key>) {
    forall t :: from <= t < |trace| ==> SomewhereIn(w0, trace[t], order)
  }

  lemma {:induction false} OrderMembers(entries: seq<CacheEntry>, keep: set<Key>)
    ensures forall key :: key in DeletionOrder(entries, keep) <==>
                          key !in keep && exists i :: 0 <= i < |entries| && entries[i].stamps.key == key
  {
    if entries != [] {
      var rest := entries[..|entries| - 1];
      OrderMembers(rest, keep);
      forall key ensures key in DeletionOrder(entries, keep) <==>
                         key !in keep && exists i :: 0 <= i < |entries| && entries[i].stamps.key == key
      {
        if i :| 0 <= i < |entries| && entries[i].stamps.key == key && key !in keep {
          assert i < |rest| ==> rest[i].stamps.key == key;
        }
      }
    }
  }

  lemma {:induction false} OrderDistinct(entries: seq<CacheEntry>, keep: set<Key>)
    requires Distinct(entries)
    ensures forall i, j :: 0 <= i < j < |DeletionOrder(entries, keep)| ==>
                           DeletionOrder(entries, keep)[i] != DeletionOrder(entries, keep)[j]
  {
    if entries != [] {
      var rest := entries[..|entries| - 1];
      OrderDistinct(rest, keep);
      OrderMembers(rest, keep);
      assert forall i :: 0 <= i < |DeletionOrder(rest, keep)| ==>
          DeletionOrder(rest, keep)[i] in DeletionOrder(rest, keep);
    }
  }

  lemma OrderIs(w: World, entries: seq<CacheEntry>, keep: set<Key>)
    requires ListingOf(w, entries)
    ensures OrderCovers(w, keep, DeletionOrder(entries, keep))
  {
    OrderDistinct(entries, keep);
    OrderMembers(entries, keep);
    forall key ensures Cached(w, key) <==> exists i :: 0 <= i < |entries| && entries[i].stamps.key == key {
      if Cached(w, key) {
        assert HasEntry(entries, key);
      }
    }
  }

  /** Where entry `i` of the listing stands in the order. */
  lemma {:induction false} OrderPrefix(entries: seq<CacheEntry>, keep: set<Key>, i: nat)
    requires i < |entries|
    ensures DeletionOrder(entries[..i + 1], keep)
            == DeletionOrder(entries[..i], keep) + if entries[i].stamps.key in keep then [] else [entries[i].stamps.key]
    ensures DeletionOrder(entries[..i + 1], keep) <= DeletionOrder(entries, keep)
    decreases |entries| - i
  {
    assert entries[..i + 1][..i] == entries[..i];
    if i + 1 < |entries| {
      OrderPrefix(entries, keep, i + 1);
    } else {
      assert entries[..i + 1] == entries;
    }
  }

  /** What deleting entry `i` of the listing, or keeping it, means for the order. */
  lemma NextDeletion(entries: seq<CacheEntry>, keep: set<Key>, i: nat, order: seq<Key>)
    requires i < |entries| && order == DeletionOrder(entries, keep)
    ensures var key, n := entries[i].stamps.key, |DeletionOrder(entries[..i], keep)|;
            && |DeletionOrder(entries[..i + 1], keep)| == (if key in keep then n else n + 1) <= |order|
            && (key !in keep ==> order[n] == key && key in Pending(order))
  {
    OrderPrefix(entries, keep, i);
    var key, n := entries[i].stamps.key, |DeletionOrder(entries[..i], keep)|;
    if key !in keep {
      assert order[n] == DeletionOrder(entries[..i + 1], keep)[n] == key;
    }
  }

  /** The deletions that a prune has planned. */
  ghost function Pending(order: seq<Key>): set<Key> {
    set key | key in order
  }

  lemma NothingDeleted(w: World, order: seq<Key>)
    ensures AfterDeleting(w, w, order, 0) && SomewhereIn(w, w, order)
  {
    assert AfterDeleting(w, w, order, 0);
  }

  lemma DeletionStep(w0: World, w: World, w': World, order: seq<Key>, n: nat)
    requires n < |order| && AfterDeleting(w0, w, order, n) && OnlyDrops(w, w', order[n])
    ensures Cached(w', order[n]) ==> AfterDeleting(w0, w', order, n)
    ensures !Cached(w', order[n]) ==> AfterDeleting(w0, w', order, n + 1)
    ensures SomewhereIn(w0, w', order)
  {
    assert order[..n + 1] == order[..n] + [order[n]];
    if Cached(w', order[n]) {
      assert AfterDeleting(w0, w', order, n);
    } else {
      assert AfterDeleting(w0, w', order, n + 1);
    }
  }

  /** The entry whose turn it is has not been deleted before. */
  lemma StillThere(w0: World, w: World, keep: set<Key>, order: seq<Key>, n: nat)
    requires n < |order| && OrderCovers(w0, keep, order) && AfterDeleting(w0, w, order, n)
    ensures Cached(w, order[n])
  {
    hide Cached;
    assert order[n] in order;
  }

  lemma DeletionRecorded(w0: World, trace: seq<World>, w: World, from: nat, order: seq<Key>)
    requires DeletedInOrder(w0, trace, from, order) && SomewhereIn(w0, w, order)
    ensures DeletedInOrder(w0, trace + [w], from, order)
  {
  }

  lemma RecordingOpens(w: World, trace: seq<World>, order: seq<Key>)
    requires |trace| > 0 && trace[|trace| - 1] == w
    ensures DeletedInOrder(w, trace, |trace| - 1, order)
  {
    NothingDeleted(w, order);
  }

  /** Every entry outside `keep` that is still there is listed at or after `i`. */
  ghost predicate LeftToPrune(w: World, keep: set<Key>, entries: seq<CacheEntry>, i: nat) {
    forall key :: Cached(w, key) && key !in keep ==> exists m :: i <= m < |entries| && entries[m].stamps.key == key
  }

  lemma PruneStarts(w: World, keep: set<Key>, entries: seq<CacheEntry>)
    requires ListingOf(w, entries)
    ensures LeftToPrune(w, keep, entries, 0)
    ensures forall i :: 0 <= i < |entries| ==> entries[i].instance == CacheName(entries[i].stamps.key)
  {
    forall key | Cached(w, key) ensures exists m :: 0 <= m < |entries| && entries[m].stamps.key == key {
      assert HasEntry(entries, key);
    }
  }

  /** What a deletion does to the other entries. */
  ghost predicate OnlyDrops(w: World, w': World, key: Key) {
    && (forall k :: Cached(w', k) ==> Cached(w, k) && w'.instances[CacheName(k)] == w.instances[CacheName(k)])
    && (forall k :: k != key && Cached(w, k) ==> Cached(w', k))
  }

  lemma PruneStep(w0: World, w: World, w': World, keep: set<Key>, key: Key)
    requires PartlyPruned(w0, w, keep) && OnlyDrops(w, w', key) && key !in keep
    ensures PartlyPruned(w0, w', keep)
  {
    hide Cached;
  }

  lemma LeftToPruneNext(w: World, w': World, keep: set<Key>, entries: seq<CacheEntry>, i: nat)
    requires i < |entries| && LeftToPrune(w, keep, entries, i)
    requires var key := entries[i].stamps.key;
             if key in keep then w' == w else OnlyDrops(w, w', key) && !Cached(w', key)
    ensures LeftToPrune(w', keep, entries, i + 1)
  {
    hide Cached;
  }

  lemma NothingPrunedYet(w: World, keep: set<Key>)
    ensures PartlyPruned(w, w, keep) && SameHost(w, w)
  {
  }

  lemma SameHostTransitive(w0: World, w: World, w': World)
    requires SameHost(w0, w) && SameHost(w, w')
    ensures SameHost(w0, w')
  {
  }

  lemma NothingLeft(w0: World, w: World, keep: set<Key>, entries: seq<CacheEntry>)
    requires PartlyPruned(w0, w, keep) && LeftToPrune(w, keep, entries, |entries|)
    ensures Pruned(w0, w, keep)
  {
  }

  /** One deletion. */
  method DropEntry(b: Builder, instance: Name, ghost key: Key, ghost p: Promise, ghost from: nat) returns (ok: bool)
    requires b.Recorded(p, from) && !p.closed && !p.holed && instance == CacheName(key)
    requires b.Acting().Pruning? && key in b.Acting().todo
    modifies b, b.incus
    ensures b.Acting() == old(b.Acting())
    ensures b.Recorded(p, from) && SameHost(old(b.incus.world), b.incus.world)
    ensures OnlyDrops(old(b.incus.world), b.incus.world, key)
    ensures ok ==> !Cached(b.incus.world, key)
    ensures b.incus.deletes && Cached(old(b.incus.world), key) ==> ok
    ensures b.incus.trace == old(b.incus.trace) + [b.incus.world]
  {
    hide Holds, Follows, Step;
    ghost var w, trace := b.incus.world, b.incus.trace;
    ok := b.incus.Delete(instance);
    assert b.incus.trace[|b.incus.trace| - 1] == b.incus.world;
    DeleteEntryKeeps(p, w, b.incus.world, key);
    OthersKept(w, b.incus.world, CacheName(key));
    DroppingIsStep(w, b.Acting(), b.incus.world, key);
    b.Log(b.Acting(), w, trace, from);
  }

  /** Deletes every entry outside `keep`, one by one in the order of the listing; a failed deletion
      ends it. */
  method PruneEntries(b: Builder, keep: set<Key>, ghost p: Promise, ghost from: nat) returns (ok: bool, order: seq<Key>)
    requires b.Recorded(p, from) && !p.closed && !p.holed && WellStamped(b.incus.world) && from == |b.incus.trace| - 1
    requires b.Acting() == Planning
    modifies b, b.incus
    ensures b.Recorded(p, from) && SameHost(old(b.incus.world), b.incus.world)
    ensures PartlyPruned(old(b.incus.world), b.incus.world, keep)
    ensures OrderCovers(old(b.incus.world), keep, order) || (order == [] && b.incus.world == old(b.incus.world))
    ensures DeletedInOrder(old(b.incus.world), b.incus.trace, from, order)
    ensures ok ==> Pruned(old(b.incus.world), b.incus.world, keep)
    ensures b.incus.able && b.incus.deletes ==> ok
  {
    hide *;
    ghost var w0 := b.incus.world;
    var entries;
    ok, entries := ListEntries(b.incus);
    NothingPrunedYet(w0, keep);
    TraceEnds(b, p, from);
    order := if ok then DeletionOrder(entries, keep) else [];
    RecordingOpens(w0, b.incus.trace, order);
    if !ok {
      return;
    }
    OrderIs(w0, entries, keep);
    PruneStarts(w0, keep, entries);
    NothingDeleted(w0, order);
    OrderEnds(entries, keep);
    PlannedDeletions(w0, keep, order);
    b.Decide(Pruning(Pending(order)), p, from);
    for i := 0 to |entries|
      invariant b.Recorded(p, from) && SameHost(w0, b.incus.world)
      invariant PartlyPruned(w0, b.incus.world, keep)
      invariant LeftToPrune(b.incus.world, keep, entries, i)
      invariant |DeletionOrder(entries[..i], keep)| <= |order|
      invariant AfterDeleting(w0, b.incus.world, order, |DeletionOrder(entries[..i], keep)|)
      invariant DeletedInOrder(w0, b.incus.trace, from, order)
      invariant b.Acting() == Pruning(Pending(order))
    {
      var key := entries[i].stamps.key;
      ghost var w := b.incus.world;
      NextDeletion(entries, keep, i, order);
      if key !in keep {
        ghost var before, n := b.incus.trace, |DeletionOrder(entries[..i], keep)|;
        StillThere(w0, w, keep, order, n);
        ok := DropEntry(b, entries[i].instance, key, p, from);
        PruneStep(w0, w, b.incus.world, keep, key);
        DeletionStep(w0, w, b.incus.world, order, n);
        DeletionRecorded(w0, before, b.incus.world, from, order);
        SameHostTransitive(w0, w, b.incus.world);
        if !ok {
          return;
        }
      }
      LeftToPruneNext(w, b.incus.world, keep, entries, i);
    }
    ok := true;
    NothingLeft(w0, b.incus.world, keep, entries);
  }

  lemma PlannedDeletions(w: World, keep: set<Key>, order: seq<Key>)
    requires OrderCovers(w, keep, order)
    ensures Step(w, Planning, w, Pruning(Pending(order)))
  {
    forall key | key in order ensures key in EntriesOf(w) {
      assert Cached(w, key);
    }
    PlannedPruneIsStep(w, Pending(order));
  }

  lemma TraceEnds(b: Builder, p: Promise, from: nat)
    requires b.Recorded(p, from)
    ensures |b.incus.trace| > 0 && b.incus.trace[|b.incus.trace| - 1] == b.incus.world
  {
  }

  lemma OrderEnds(entries: seq<CacheEntry>, keep: set<Key>)
    ensures entries[..0] == [] && DeletionOrder([], keep) == []
  {
  }

  /** What a prune keeps after each of its commands. */
  ghost function PrunePromise(w: World, pace: Option<Pace>): Promise {
    Promise(false, false, iset{}, BoundOf(w, true),
            if pace.Some? && Paced(w, pace.value.ceiling, pace.value.span) then pace else None, w)
  }

  /** `image cache prune`, under the lock. Nothing but entries outside `keep` is ever deleted. */
  method Prune(b: Builder, settings: Settings, source: string, keepGenerations: nat, all: bool,
               ghost pace: Option<Pace>)
    returns (ok: bool, keep: set<Key>, pin: Pin, order: seq<Key>)
    requires Safe(b.incus.world)
    requires |b.incus.trace| > 0 && b.incus.trace[|b.incus.trace| - 1] == b.incus.world
    modifies b, b.incus
    ensures b.Recorded(PrunePromise(old(b.incus.world), pace), old(|b.incus.trace|) - 1)
    ensures SameHost(old(b.incus.world), b.incus.world)
    ensures PartlyPruned(old(b.incus.world), b.incus.world, keep)
    ensures OrderCovers(old(b.incus.world), keep, order) || (order == [] && b.incus.world == old(b.incus.world))
    ensures DeletedInOrder(old(b.incus.world), b.incus.trace, old(|b.incus.trace|) - 1, order)
    ensures ok ==> Pruned(old(b.incus.world), b.incus.world, keep)
    ensures b.incus.able && b.incus.deletes ==> ok
    ensures (ok || order != []) && source in b.incus.world.manifest.sources ==>
              pin == b.incus.world.manifest.sources[source]
    ensures ok || order != [] ==> forall key :: key in keep <==>
              ToKeep(settings, old(b.incus.world).manifest, pin, if all then 0 else keepGenerations, key)
    ensures ok || order != [] ==>
              KeepsChains(settings, old(b.incus.world).manifest, pin, if all then 0 else keepGenerations, keep)
  {
    ghost var p := PrunePromise(b.incus.world, pace);
    ghost var from := |b.incus.trace| - 1;
    b.run := [Moment(b.incus.world, Planning, true)];
    RecordingStarts(b, p);
    hide Holds, ToKeep, DeletedInOrder, OrderCovers, KeepsChains;
    var m := b.incus.world.manifest;
    keep, order := {}, [];
    RecordingOpens(b.incus.world, b.incus.trace, order);
    var sources, resolved;
    ok, pin, sources, resolved := PinSource(b.incus, m, source, false);
    if !ok {
      return;
    }
    keep := Chains(settings, m, pin, if all then 0 else keepGenerations);
    ok, order := PruneEntries(b, keep, p, from);
  }
}
