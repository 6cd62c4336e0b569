/** Plans as the builder uses them, and what a stage, an attempt and a whole run leave behind: the
    predicates in which the builder's methods are specified, and the steps between them. */
module RunOutcomes {
  import opened Prelude
  import opened StageKeys
  import opened History
  import opened Host
  import opened BuildPlan
  import opened CacheInvariant

  const STALE_MULTIPLIER := 3

  /** How old, in microseconds, an entry may be that a build reuses. */
  function CeilingOf(maxAgeDays: nat): int {
    maxAgeDays * STALE_MULTIPLIER * DAY
  }

  datatype Plan = Plan(
    alias: string, source: string, pin: Pin, inputs: BuildInputs, steps: seq<PlanStep>,
    publishedKey: Option<Key>, manifest: Manifest, noCache: bool, now: int, maxAgeDays: nat,
    dirty: bool, entries: seq<CacheEntry>)
  {
    predicate WellFormed() {
      && Loaded(inputs.stages) && |steps| == |inputs.stages|
      && pin == Pin(inputs.fingerprint, inputs.architecture)
      && maxAgeDays >= 1
      && forall i :: 0 <= i < |steps| ==> steps[i].key == StageKeyAt(inputs, i)
    }

    function BuildKey(): Key
      requires WellFormed()
    {
      KeyAt(inputs, |inputs.stages| - 1)
    }

    predicate IsNoop()
      requires WellFormed()
    {
      !noCache && publishedKey == Some(BuildKey())
    }

    /** Index of the first stage to build. */
    function FirstBuild(): nat {
      HitPrefix(steps)
    }

    function ReusedEntry(): Option<CacheEntry> {
      if HitPrefix(steps) > 0 then steps[HitPrefix(steps) - 1].entry else None
    }

    function Ceiling(): int {
      CeilingOf(maxAgeDays)
    }

    /** Whether the deepest reused entry is past the ceiling. */
    predicate Stale() {
      ReusedEntry().Some? && Max(now - ReusedEntry().value.stamps.created, 0) > Ceiling()
    }
  }

  /** `isoformat(timespec="seconds")` */
  function WholeSeconds(time: int): int {
    time - time % SECOND
  }

  datatype StageResult =
    | Done(entry: CacheEntry)
    | InitFailed
    | StageFailed(kept: Option<Name>)
    | CommitFailed(taken: bool)

  /** The worker after copying or initialising: what the parent entry holds, at rest. */
  ghost predicate Prepared(i: Instance, parent: Key) {
    && i.guest.Off? && !i.pinned && i.root == map[] && i.content == Denotes(parent)
  }

  /** The worker once a stage's commands have all worked: exactly one more run, cleaned up,
      flushed, stopped, and off the ACL. */
  ghost predicate Complete(i: Instance, key: Key) {
    i.guest.Off? && !i.pinned && !i.acl && i.root == map[] && i.content == Denotes(key)
  }

  ghost predicate NoWorkers(w: World) {
    forall n :: n in w.instances ==> !n.WorkerName?
  }

  /** The workers that a stage may leave when deletions work: none when it is done or its worker was
      discarded, the one reported as kept, or a stopped one that does not name the ACL. */
  ghost predicate WorkersLeft(w: World, r: StageResult) {
    forall n :: n in w.instances && n.WorkerName? ==>
      match r
      case Done(_) => false
      case StageFailed(kept) => kept == Some(n)
      case _ => w.instances[n].guest.Off? && !w.instances[n].acl
  }

  /** The name of an entry is free, or the build replaces the entry it found there. */
  ghost predicate CanCommit(w: World, plan: Plan, j: nat)
    requires plan.WellFormed() && j < |plan.steps|
  {
    plan.noCache || !Cached(w, KeyAt(plan.inputs, j))
  }

  /** Nothing is in the way of any stage that is to be built. */
  ghost predicate StagesCanCommit(w: World, plan: Plan)
    requires plan.WellFormed()
  {
    plan.noCache || TargetsFree(w, plan.inputs, plan.FirstBuild())
  }

  /** No instance but entries and workers names the build ACL. */
  ghost predicate AclOurs(w: World) {
    forall n :: n in w.instances && n.OtherName? ==> !w.instances[n].acl
  }

  /** What a run needs of the host, besides working commands, to get to its end. */
  ghost predicate CanFinish(w: World, plan: Plan, allowStale: bool)
    requires plan.WellFormed()
  {
    && (plan.Stale() ==> allowStale)
    && StagesCanCommit(w, plan)
    && (plan.FirstBuild() < |plan.steps| ==> AclOurs(w))
  }

  lemma {:induction false} PushedKeys(files: seq<(string, string)>, n: nat)
    requires n <= |files|
    ensures Pushed(files, n).Keys == set i | 0 <= i < n :: files[i].0
  {
    if n > 0 {
      PushedKeys(files, n - 1);
    }
  }

  function StageRun(key: StageKey): Edit {
    RunStage(key.stage.name, Arguments(key.inputs), key.generation, key.stageGeneration)
  }

  function StageFiles(key: StageKey): (files: seq<(string, string)>)
    ensures |files| > 0
  {
    Files(key.stage.name, key.script, key.inputs)
  }

  lemma StageExec(inputs: BuildInputs, j: nat)
    requires j < |inputs.stages| && Loaded(inputs.stages)
    ensures var key := StageKeyAt(inputs, j); var files := StageFiles(key);
            ExecOf(key.key) == Exec(key.stage.name, Pushed(files, |files|), Arguments(key.inputs),
                                    Some(inputs.allow), key.generation, key.stageGeneration)
  {
    AllowOfKeyAt(inputs, j);
  }

  lemma DenotesStep(inputs: BuildInputs, j: nat)
    requires j < |inputs.stages|
    ensures var key := KeyAt(inputs, j); var before := Denotes(key.parent);
            && Denotes(key) == before.(execs := before.execs + [ExecOf(key)])
            && before.intact && (before.execs == [] <==> j == 0)
  {
    var key := KeyAt(inputs, j);
    assert Denotes(key.parent).intact;
  }

  lemma ScriptIsPushed(files: seq<(string, string)>)
    requires |files| > 0
    ensures files[0].0 in Pushed(files, |files|)
  {
    PushedKeys(files, |files|);
  }

  lemma RunEffect(w: World, i: Instance, key: Key, e: Edit)
    requires key.Link? && e.RunStage? && Answers(i) && i.acl && ScriptFile(e.name) in i.root
    requires ExecOf(key) == Exec(e.name, i.root, e.arguments, w.acl, e.generation, e.stageGeneration)
    requires i.content == Denotes(key.parent)
    ensures Edited(w, i, e)
            == Some(i.(content := Denotes(key), flushed := false,
                       lineage := if Denotes(key.parent).execs == [] then [w.now] else i.lineage))
  {
    assert Denotes(key.parent).intact;
    assert i.content.(execs := i.content.execs + [ExecOf(key)]) == Denotes(key);
  }

  /** Running the stage's script on the parent's content, behind the requested ACL and with
      exactly the stage's files in place, gives the content of the stage's key. */
  lemma StageRunEffect(w: World, i: Instance, inputs: BuildInputs, j: nat)
    requires j < |inputs.stages| && Loaded(inputs.stages)
    requires Answers(i) && i.acl && w.acl == Some(inputs.allow)
    requires var files := StageFiles(StageKeyAt(inputs, j)); i.root == Pushed(files, |files|)
    requires i.content == Denotes(KeyAt(inputs, j).parent)
    ensures Edited(w, i, StageRun(StageKeyAt(inputs, j)))
            == Some(i.(content := Denotes(KeyAt(inputs, j)), flushed := false,
                       lineage := if j == 0 then [w.now] else i.lineage))
  {
    var key := StageKeyAt(inputs, j);
    ScriptIsPushed(StageFiles(key));
    StageExec(inputs, j);
    DenotesStep(inputs, j);
    RunEffect(w, i, key.key, StageRun(key));
  }

  lemma StageFilesGone(key: StageKey)
    ensures var files := StageFiles(key);
            Pushed(files, |files|) - (set i | 0 <= i < |files| :: files[i].0) == map[]
  {
    PushedKeys(StageFiles(key), |StageFiles(key)|);
  }

  // ---- what a commit needs -----------------------------------------------------------------------

  /** The plan's generations stay within what the promise allows, its clock matches the
      promise's, and a closed cache is never rebuilt with `--no-cache`. */
  ghost predicate Allows(p: Promise, plan: Plan)
    requires plan.WellFormed()
  {
    && (p.closed ==> !plan.noCache)
    && (p.holed ==> forall j :: 0 <= j < |plan.inputs.stages| ==> KeyAt(plan.inputs, j) in p.among)
    && (p.bound.Some? ==>
          && plan.inputs.generation == plan.manifest.generation
          && plan.inputs.stageGenerations == plan.manifest.stageGenerations)
    && (p.pace.Some? ==> p.pace.value.start == plan.now && p.pace.value.ceiling == plan.Ceiling())
  }

  ghost predicate InTime(p: Promise, w: World) {
    p.pace.Some? && w.now <= p.pace.value.start + p.pace.value.span
  }

  /** The lineage of a worker for stage `j`, before its own stamp. */
  ghost predicate LineReady(line: seq<int>, j: nat, pace: Pace) {
    if j == 0 then |line| == 1 && pace.start <= line[0]
    else |line| == j + 1 && PacedLine(line, pace.ceiling, pace.span) && pace.start - pace.ceiling <= line[j]
  }

  lemma LineGrows(line: seq<int>, j: nat, pace: Pace, created: int)
    requires LineReady(line, j, pace) && created <= pace.start + pace.span
    ensures PacedLine(line + [created], pace.ceiling, pace.span) && |line + [created]| == j + 2
  {
    var grown := line + [created];
    forall k | 1 <= k < |grown| - 1 ensures grown[k + 1] - grown[k] <= pace.ceiling + pace.span {
      if k + 1 < |line| {
        assert line[k + 1] - line[k] <= pace.ceiling + pace.span;
      }
    }
  }

  lemma StampsOfStep(inputs: BuildInputs, j: nat, created: int)
    requires j < |inputs.stages| && Loaded(inputs.stages)
    ensures var key := StageKeyAt(inputs, j);
            Stamps(key.key, key.stage.name, key.parent, inputs.fingerprint, created, key.generation,
                   key.stageGeneration, inputs.allow, key.script, key.inputs) == StampsFor(key.key, created)
    ensures Shaped(KeyAt(inputs, j))
  {
    AllowOfKeyAt(inputs, j);
    KeyAtShaped(inputs, j);
  }

  /** A finished worker, once stamped, may be committed under the promise. */
  lemma StampedIsWelcome(p: Promise, plan: Plan, j: nat, w: World, i: Instance, created: int)
    requires plan.WellFormed() && j < |plan.steps| && Allows(p, plan)
    requires Complete(i, KeyAt(plan.inputs, j))
    requires (p.closed || p.holed) && j > 0 ==> Cached(w, KeyAt(plan.inputs, j - 1))
    requires p.holed ==> IntactBut(p.origin, w, KeyAt(plan.inputs, j))
    requires InTime(p, w) ==> LineReady(i.lineage, j, p.pace.value)
    requires created <= w.now && (p.bound.Some? ==> w.manifest == plan.manifest)
    ensures var key := KeyAt(plan.inputs, j);
            Welcome(p, w, key, i.(stamps := Some(StampsFor(key, created)), lineage := i.lineage + [created]))
  {
    StampsOfStep(plan.inputs, j, created);
    DepthOfKeyAt(plan.inputs, j);
    if p.bound.Some? {
      KeyAtWithin(plan.inputs, j, plan.manifest);
      assert p.bound.value == OfAll || p.bound.value == OfStages;
    }
    if InTime(p, w) {
      LineGrows(i.lineage, j, p.pace.value, created);
    }
  }

  /** The entry that stage `j` starts from is in the cache under its key. */
  ghost predicate ParentInPlace(plan: Plan, j: nat, parent: Option<CacheEntry>, w: World)
    requires plan.WellFormed() && j <= |plan.steps|
  {
    && (parent.Some? <==> j > 0)
    && (j > 0 ==> && parent.value.instance == CacheName(KeyAt(plan.inputs, j - 1))
                  && Cached(w, KeyAt(plan.inputs, j - 1)))
  }

  ghost predicate StampedSince(w: World, key: Key, since: int) {
    && Cached(w, key) && w.instances[CacheName(key)].stamps.Some?
    && since <= w.instances[CacheName(key)].stamps.value.created
  }

  lemma EntryFacts(p: Promise, w: World, key: Key)
    requires Holds(p, w) && Cached(w, key)
    ensures IsEntry(key, w.instances[CacheName(key)])
    ensures InTime(p, w) ==> PacedEntry(key, w.instances[CacheName(key)], p.pace.value.ceiling, p.pace.value.span)
  {
  }

  /** A worker that has just been created is not running. */
  lemma NewWorkerAtRest(p: Promise, w: World, w': World, n: Name, made: Instance, ok: bool)
    requires Holds(p, w) && n.WorkerName? && Created(w, w', n, made, ok) && made.guest.Off?
    ensures Holds(p, w')
  {
    WorkerCommandKeeps(p, w, w', n);
  }

  /** The lineage a worker brings to its commit. */
  lemma LineOfWorker(p: Promise, plan: Plan, j: nat, w: World, line: seq<int>)
    requires plan.WellFormed() && j < |plan.steps| && Allows(p, plan) && Holds(p, w) && InTime(p, w)
    requires j == 0 ==> exists born :: plan.now <= born && line == [born]
    requires j > 0 ==> && StampedSince(w, KeyAt(plan.inputs, j - 1), plan.now - plan.Ceiling())
                       && line == w.instances[CacheName(KeyAt(plan.inputs, j - 1))].lineage
    ensures LineReady(line, j, p.pace.value)
  {
    if j > 0 {
      EntryFacts(p, w, KeyAt(plan.inputs, j - 1));
      DepthOfKeyAt(plan.inputs, j - 1);
    }
  }

  ghost predicate OtherEntriesKept(w: World, w': World, key: Key) {
    && (forall k :: k != key ==> (Cached(w', k) <==> Cached(w, k)))
    && (forall k :: k != key && Cached(w, k) ==> w'.instances[CacheName(k)] == w.instances[CacheName(k)])
  }

  ghost predicate NewEntryOffAcl(w: World, w': World, key: Key) {
    Cached(w', key) && w'.instances[CacheName(key)].acl ==>
      Cached(w, key) && w'.instances[CacheName(key)] == w.instances[CacheName(key)]
  }

  /** The entry is in place, off the ACL, and stamped no earlier than a second before `since`. */
  ghost predicate Committed(w: World, key: Key, entry: CacheEntry, since: int) {
    && entry.instance == CacheName(key) && Cached(w, key)
    && var i := w.instances[CacheName(key)];
       !i.acl && i.stamps.Some? && since - SECOND <= i.stamps.value.created
  }

  // ---- one run -------------------------------------------------------------------------------------

  /** Where applying the ACL failed: before any command, creating it, or writing its rules. */
  datatype AclStep = PolicyStep | CreateStep | RulesStep

  datatype Failure =
    | StaleEntry
    | SaveFailed
    | ListFailed
    | AclFailed(step: AclStep)
    | StageError(result: StageResult)
    | PublishError
    | CleanupError

  /** `policy`: the build ACL was applied. `rebuilt`: stages committed. `kept`: the worker reported
      as kept for inspection. `cleanupFailed`: the report says the ACL could not be released, and
      `refused` that Incus refused because an instance still named it. */
  datatype RunReport =
    | Finished(policy: bool, published: bool, rebuilt: nat)
    | Raised(failure: Failure, policy: bool, kept: Option<Name>, cleanupFailed: bool, refused: bool, rebuilt: nat)

  function PublishedKey(w: World, alias: string): Option<Key> {
    if alias in w.images then w.images[alias].key else None
  }

  function StepKeys(plan: Plan): (keys: seq<StageKey>)
    requires plan.WellFormed()
    ensures |keys| == |plan.steps|
    ensures forall i :: 0 <= i < |keys| ==> keys[i] == StageKeyAt(plan.inputs, i)
  {
    seq(|plan.steps|, i requires 0 <= i < |plan.steps| => plan.steps[i].key)
  }

  /** `plan` was made for this world. The no-op path never lists the cache. */
  ghost predicate PlanOf(w: World, plan: Plan) {
    && plan.WellFormed()
    && plan.publishedKey == PublishedKey(w, plan.alias)
    && (plan.IsNoop() ==>
          plan.entries == [] && forall i :: 0 <= i < |plan.steps| ==> plan.steps[i].hit && plan.steps[i].entry.None?)
    && (!plan.IsNoop() ==>
          ListingOf(w, plan.entries)
          && StepsFor(StepKeys(plan), plan.entries, plan.inputs.fingerprint, plan.inputs.allow, plan.noCache,
               plan.steps))
  }

  /** The key of a stage from `d` up to but not including `j`. */
  ghost predicate Between(plan: Plan, d: nat, j: nat, key: Key)
    requires j <= |plan.inputs.stages|
  {
    exists i :: d <= i < j && key == KeyAt(plan.inputs, i)
  }

  /** Exactly the entries of `w0` and the chain's keys from `d` up to but not including `j`. */
  ghost predicate Grown(w0: World, w: World, plan: Plan, d: nat, j: nat)
    requires plan.WellFormed() && j <= |plan.steps|
  {
    forall k :: Cached(w, k) <==> Cached(w0, k) || Between(plan, d, j, k)
  }

  /** The same without the entry of stage `j`, which a `--no-cache` build has deleted and not
      replaced. */
  ghost predicate GrownWithHole(w0: World, w: World, plan: Plan, d: nat, j: nat)
    requires plan.WellFormed() && j < |plan.steps|
  {
    forall k :: Cached(w, k) <==> k != KeyAt(plan.inputs, j) && (Cached(w0, k) || Between(plan, d, j, k))
  }

  /** None of these stages had an entry. */
  ghost predicate NoneCached(w: World, plan: Plan, d: nat, j: nat)
    requires plan.WellFormed() && j <= |plan.steps|
  {
    forall i :: d <= i < j ==> !Cached(w, KeyAt(plan.inputs, i))
  }

  /** The content of a key is there, but only in a worker. */
  ghost predicate Stranded(w: World, key: Key) {
    exists n :: n in w.instances && n.WorkerName? && w.instances[n].content == Denotes(key)
  }

  /** Only entries of the listing may still name the ACL. */
  ghost predicate OnAclListed(w: World, entries: seq<CacheEntry>) {
    forall k :: Cached(w, k) && w.instances[CacheName(k)].acl ==> HasEntry(entries, k)
  }

  ghost predicate EntriesListed(w: World, entries: seq<CacheEntry>) {
    forall k :: Cached(w, k) ==> HasEntry(entries, k)
  }

  ghost predicate TargetsFree(w: World, inputs: BuildInputs, j: nat) {
    forall m :: j <= m < |inputs.stages| ==> !Cached(w, KeyAt(inputs, m))
  }

  /** In a closed cache nothing exists past the first missing stage. */
  lemma {:induction false} MissingStaysMissing(w: World, inputs: BuildInputs, j: nat, m: nat)
    requires ParentClosed(w) && j <= m < |inputs.stages| && !Cached(w, KeyAt(inputs, j))
    ensures !Cached(w, KeyAt(inputs, m))
  {
    if m > j {
      MissingStaysMissing(w, inputs, j, m - 1);
      assert KeyAt(inputs, m).parent == KeyAt(inputs, m - 1);
    }
  }

  /** The stages before the first one to build are in the cache. */
  lemma HitsAreEntries(w: World, plan: Plan, n: nat)
    requires PlanOf(w, plan) && !plan.IsNoop() && n <= plan.FirstBuild()
    ensures AllCached(StepKeys(plan), plan.entries, n)
    ensures forall i :: 0 <= i < n ==> Cached(w, KeyAt(plan.inputs, i))
    ensures n > 0 ==> && !plan.noCache && plan.steps[n - 1].entry.Some?
                      && plan.steps[n - 1].entry.value.instance == CacheName(KeyAt(plan.inputs, n - 1))
                      && w.instances[CacheName(KeyAt(plan.inputs, n - 1))].stamps
                         == Some(plan.steps[n - 1].entry.value.stamps)
  {
    var keys := StepKeys(plan);
    if n > 0 {
      assert plan.steps[n - 1].hit;
      assert StepFor(keys, plan.entries, plan.inputs.fingerprint, plan.inputs.allow, plan.noCache, n - 1,
          plan.steps[n - 1]);
    }
    forall i | 0 <= i < n ensures Cached(w, KeyAt(plan.inputs, i)) {
      assert HasEntry(plan.entries, keys[i].key);
    }
  }

  /** The first stage to build has no entry. */
  lemma FirstMissNotCached(w: World, plan: Plan)
    requires PlanOf(w, plan) && !plan.IsNoop() && !plan.noCache && plan.FirstBuild() < |plan.steps|
    ensures !Cached(w, KeyAt(plan.inputs, plan.FirstBuild()))
  {
    var d := plan.FirstBuild();
    var keys := StepKeys(plan);
    HitsAreEntries(w, plan, d);
    assert !plan.steps[d].hit;
    assert StepFor(keys, plan.entries, plan.inputs.fingerprint, plan.inputs.allow, plan.noCache, d, plan.steps[d]);
    AllCachedNext(keys, plan.entries, d);
  }

  /** Every rename target of a normal build over a closed cache is free. */
  lemma RenameTargetsFree(w: World, plan: Plan)
    requires PlanOf(w, plan) && !plan.IsNoop() && !plan.noCache && ParentClosed(w)
    ensures TargetsFree(w, plan.inputs, plan.FirstBuild())
  {
    assert plan.WellFormed();
    hide PlanOf;
    var d := plan.FirstBuild();
    if d < |plan.steps| {
      FirstMissNotCached(w, plan);
      forall m | d <= m < |plan.inputs.stages| ensures !Cached(w, KeyAt(plan.inputs, m)) {
        MissingStaysMissing(w, plan.inputs, d, m);
      }
    }
  }

  /** The reused entry is past the ceiling on its own stamp. */
  predicate TooOld(plan: Plan) {
    plan.ReusedEntry().Some? && plan.ReusedEntry().value.stamps.created < plan.now - plan.Ceiling()
  }

  /** After `rebuilt` stages the cache has grown by exactly their keys, none of which had an entry
      unless the cache is not in use. A commit that reported failure may have worked all the same;
      one that replaced an entry may have got no further than deleting it. */
  ghost predicate BuildOutcome(w0: World, w: World, plan: Plan, failure: Option<StageResult>, rebuilt: nat)
    requires plan.WellFormed()
  {
    var d, j := plan.FirstBuild(), plan.FirstBuild() + rebuilt;
    && j <= |plan.steps|
    && (!plan.noCache ==> NoneCached(w0, plan, d, j))
    && match failure
       case None => j == |plan.steps| && Grown(w0, w, plan, d, j)
       case Some(result) => j < |plan.steps| && StoppedAt(w0, w, plan, d, j, result)
  }

  /** How the cache stands when stage `j` was the one that failed. */
  ghost predicate StoppedAt(w0: World, w: World, plan: Plan, d: nat, j: nat, result: StageResult)
    requires plan.WellFormed() && j < |plan.steps|
  {
    match result
    case Done(_) => false
    case CommitFailed(taken) =>
      && (Grown(w0, w, plan, d, j) || Grown(w0, w, plan, d, j + 1)
          || (plan.noCache && GrownWithHole(w0, w, plan, d, j)))
      && (taken ==> Cached(w0, KeyAt(plan.inputs, j)))
    case _ => Grown(w0, w, plan, d, j)
  }

  lemma FirstBuildIsHitPrefix(plan: Plan)
    ensures plan.FirstBuild() == HitPrefix(plan.steps) <= |plan.steps|
  {
  }

  /** The deepest hit is the entry to start from. */
  lemma ReusedInPlace(w: World, plan: Plan)
    requires PlanOf(w, plan) && !plan.IsNoop()
    ensures ParentInPlace(plan, plan.FirstBuild(), plan.ReusedEntry(), w)
    ensures plan.FirstBuild() > 0 && !TooOld(plan)
            ==> StampedSince(w, KeyAt(plan.inputs, plan.FirstBuild() - 1), plan.now - plan.Ceiling())
  {
    HitsAreEntries(w, plan, plan.FirstBuild());
  }

  lemma AllListed(w: World, plan: Plan)
    requires PlanOf(w, plan) && !plan.IsNoop()
    ensures OnAclListed(w, plan.entries) && ListingNamed(plan.entries) && EntriesListed(w, plan.entries)
    ensures Grown(w, w, plan, plan.FirstBuild(), plan.FirstBuild())
  {
  }

  lemma ClosedIfPromised(p: Promise, w: World)
    requires Holds(p, w)
    ensures p.closed ==> ParentClosed(w)
  {
  }

  lemma ProgressStarts(p: Promise, plan: Plan, w: World, j: nat, template: Option<CacheEntry>)
    requires plan.WellFormed() && j == plan.FirstBuild() <= |plan.steps|
    requires j < |plan.steps| ==> w.acl == Some(plan.inputs.allow)
    requires ParentInPlace(plan, j, template, w) && Grown(w, w, plan, j, j)
    requires OnAclListed(w, plan.entries) && ListingNamed(plan.entries) && EntriesListed(w, plan.entries)
    requires p.closed ==> TargetsFree(w, plan.inputs, j)
    requires p.holed ==> Untouched(p.origin, w)
    requires p.bound.Some? ==> w.manifest == plan.manifest
    requires p.pace.Some? ==> plan.now <= w.now
    requires p.pace.Some? && j > 0 ==> StampedSince(w, KeyAt(plan.inputs, j - 1), plan.now - plan.Ceiling())
    ensures Progress(p, plan, w, w, j, template)
  {
  }

  lemma PromiseMatchesPlan(p: Promise, plan: Plan)
    requires plan.WellFormed() && Allows(p, plan)
    ensures p.closed ==> !plan.noCache
  {
  }

  /** What the loop over the stages starts from. */
  lemma StartingPoint(p: Promise, w: World, plan: Plan)
    requires plan.WellFormed() && PlanOf(w, plan) && !plan.IsNoop() && Allows(p, plan) && Holds(p, w)
    requires p.holed ==> Untouched(p.origin, w)
    requires p.pace.Some? ==> plan.now <= w.now && !TooOld(plan)
    requires p.bound.Some? ==> w.manifest == plan.manifest
    requires plan.FirstBuild() < |plan.steps| ==> w.acl == Some(plan.inputs.allow)
    ensures Progress(p, plan, w, w, plan.FirstBuild(), plan.ReusedEntry())
  {
    hide *;
    FirstBuildIsHitPrefix(plan);
    ReusedInPlace(w, plan);
    AllListed(w, plan);
    ClosedIfPromised(p, w);
    PromiseMatchesPlan(p, plan);
    if p.closed {
      RenameTargetsFree(w, plan);
    }
    ProgressStarts(p, plan, w, plan.FirstBuild(), plan.ReusedEntry());
  }

  lemma BetweenNext(plan: Plan, d: nat, j: nat)
    requires d <= j < |plan.inputs.stages|
    ensures forall k :: Between(plan, d, j + 1, k) <==> Between(plan, d, j, k) || k == KeyAt(plan.inputs, j)
    ensures !Between(plan, d, j, KeyAt(plan.inputs, j))
  {
    hide KeyAt;
    forall i | d <= i < j ensures KeyAt(plan.inputs, i) != KeyAt(plan.inputs, j) {
      ChainKeysDistinct(plan.inputs, plan.inputs, i, j);
    }
    forall k ensures Between(plan, d, j + 1, k) <==> Between(plan, d, j, k) || k == KeyAt(plan.inputs, j) {
      if i :| d <= i < j && k == KeyAt(plan.inputs, i) {
        assert d <= i < j + 1;
      } else if k == KeyAt(plan.inputs, j) {
        assert d <= j < j + 1;
      } else {
        forall i | d <= i < j + 1 ensures k != KeyAt(plan.inputs, i) {
          assert i < j || i == j;
        }
      }
    }
  }

  /** One more stage: its key is the only entry that changed. */
  lemma StageOutcome(w0: World, w: World, w': World, plan: Plan, d: nat, j: nat)
    requires plan.WellFormed() && d <= j < |plan.steps| && Grown(w0, w, plan, d, j)
    requires OtherEntriesKept(w, w', KeyAt(plan.inputs, j))
    ensures Cached(w', KeyAt(plan.inputs, j)) ==> Grown(w0, w', plan, d, j + 1)
    ensures !Cached(w', KeyAt(plan.inputs, j)) ==> GrownWithHole(w0, w', plan, d, j)
    ensures SameKeys(w, w') ==> Grown(w0, w', plan, d, j)
    ensures Cached(w, KeyAt(plan.inputs, j)) <==> Cached(w0, KeyAt(plan.inputs, j))
  {
    hide KeyAt, Cached, Between;
    BetweenNext(plan, d, j);
  }

  lemma StageTargets(w: World, w': World, plan: Plan, j: nat)
    requires plan.WellFormed() && j < |plan.steps| && OtherEntriesKept(w, w', KeyAt(plan.inputs, j))
    requires TargetsFree(w, plan.inputs, j)
    ensures TargetsFree(w', plan.inputs, j + 1)
  {
    forall m | j + 1 <= m < |plan.inputs.stages| ensures !Cached(w', KeyAt(plan.inputs, m)) {
      ChainKeysDistinct(plan.inputs, plan.inputs, m, j);
    }
  }

  lemma StillListed(w: World, w': World, entries: seq<CacheEntry>, key: Key)
    requires OtherEntriesKept(w, w', key) && NewEntryOffAcl(w, w', key) && OnAclListed(w, entries)
    ensures OnAclListed(w', entries)
  {
    hide HasEntry;
  }

  /** What `BuildStage` promises about the entries. */
  ghost predicate StagePromise(w: World, w': World, plan: Plan, j: nat, result: StageResult)
    requires plan.WellFormed() && j < |plan.steps|
  {
    var key := KeyAt(plan.inputs, j);
    && SameHost(w, w')
    && OtherEntriesKept(w, w', key) && NewEntryOffAcl(w, w', key)
    && (!plan.noCache && Cached(w, key) ==> Cached(w', key) && !result.Done?)
    && (result.InitFailed? || result.StageFailed? ==> SameEntries(w, w'))
    && (result.Done? ==> Committed(w', key, result.entry, w.now))
    && (result.CommitFailed? && result.taken ==> Cached(w, key))
    && (result.CommitFailed? && !Cached(w', key) ==> Stranded(w', key))
  }

  /** Where the loop over the stages stands before stage `j`. */
  ghost predicate Progress(p: Promise, plan: Plan, w0: World, w: World, j: nat, template: Option<CacheEntry>)
    requires plan.WellFormed() && j <= |plan.steps|
  {
    && SameHost(w0, w) && (j < |plan.steps| ==> w.acl == Some(plan.inputs.allow))
    && ParentInPlace(plan, j, template, w)
    && plan.FirstBuild() <= j && Grown(w0, w, plan, plan.FirstBuild(), j) && OnAclListed(w, plan.entries)
    && (p.closed ==> TargetsFree(w, plan.inputs, j)) && (p.holed ==> Intact(p.origin, w) && SameKeys(p.origin, w0))
    && (!plan.noCache ==> NoneCached(w0, plan, plan.FirstBuild(), j)) && EntriesListed(w0, plan.entries)
    && ListingNamed(plan.entries) && (p.bound.Some? ==> w.manifest == plan.manifest)
    && (p.pace.Some? ==> plan.now <= w.now)
    && (p.pace.Some? && j > 0 ==> StampedSince(w, KeyAt(plan.inputs, j - 1), plan.now - plan.Ceiling()))
  }

  lemma ProgressGives(p: Promise, plan: Plan, w0: World, w: World, j: nat, template: Option<CacheEntry>)
    requires plan.WellFormed() && j < |plan.steps| && Progress(p, plan, w0, w, j, template)
    ensures ParentInPlace(plan, j, template, w) && ListingNamed(plan.entries)
    ensures w.acl == Some(plan.inputs.allow) && (p.bound.Some? ==> w.manifest == plan.manifest)
    ensures p.holed ==> Replaceable(p.origin, w, KeyAt(plan.inputs, j))
    ensures p.pace.Some? ==> plan.now <= w.now
    ensures p.pace.Some? && j > 0 ==> StampedSince(w, KeyAt(plan.inputs, j - 1), plan.now - plan.Ceiling())
    ensures Cached(w, KeyAt(plan.inputs, j)) <==> Cached(w0, KeyAt(plan.inputs, j))
    ensures Cached(w, KeyAt(plan.inputs, j)) ==> HasEntry(plan.entries, KeyAt(plan.inputs, j))
  {
    hide Denotes, Shaped, PacedLine;
    BetweenNext(plan, plan.FirstBuild(), j);
    if p.holed {
      NoNewChild(p.origin, w0, w, plan, plan.FirstBuild(), j);
    }
  }

  /** No stage before `j` has stage `j` for a parent. */
  lemma ChildOfLater(plan: Plan, d: nat, j: nat, child: Key)
    requires j < |plan.inputs.stages| && child.Link? && child.parent == KeyAt(plan.inputs, j)
    ensures !Between(plan, d, j, child)
  {
    DepthOfKeyAt(plan.inputs, j);
    forall i | 0 <= i < j ensures child != KeyAt(plan.inputs, i) {
      DepthOfKeyAt(plan.inputs, i);
    }
  }

  lemma NoNewChild(origin: World, w0: World, w: World, plan: Plan, d: nat, j: nat)
    requires plan.WellFormed() && d <= j < |plan.steps| && Grown(w0, w, plan, d, j)
    requires Intact(origin, w) && SameKeys(origin, w0)
    ensures Replaceable(origin, w, KeyAt(plan.inputs, j))
  {
    forall key: Key | Cached(w, key) && key.Link? && key.parent == KeyAt(plan.inputs, j) ensures Cached(origin, key) {
      ChildOfLater(plan, d, j, key);
    }
  }

  /** A stage that is done moves the loop on; one that is not ends it with the outcome so far. */
  lemma ProgressAdvances(p: Promise, plan: Plan, w0: World, w: World, w': World, j: nat,
                         template: Option<CacheEntry>, r: StageResult)
    requires plan.WellFormed() && j < |plan.steps| && Progress(p, plan, w0, w, j, template)
    requires StagePromise(w, w', plan, j, r) && (p.holed && r.Done? ==> Intact(p.origin, w'))
    ensures SameHost(w0, w')
    ensures r.Done? ==> Progress(p, plan, w0, w', j + 1, Some(r.entry))
    ensures !r.Done? ==> j >= plan.FirstBuild() && BuildOutcome(w0, w', plan, Some(r), j - plan.FirstBuild())
                         && OnAclListed(w', plan.entries)
    ensures r.CommitFailed? && !Cached(w', KeyAt(plan.inputs, j)) ==> Stranded(w', KeyAt(plan.inputs, j))
    ensures r.CommitFailed? && p.closed ==> !r.taken
  {
    hide Grown, GrownWithHole, NoneCached, OnAclListed, TargetsFree, KeyAt, Intact, Stranded, StoppedAt;
    hide OtherEntriesKept, NewEntryOffAcl, SameEntries, Cached, EntriesListed, SameKeys;
    var key, d := KeyAt(plan.inputs, j), plan.FirstBuild();
    StageOutcome(w0, w, w', plan, d, j);
    StillListed(w, w', plan.entries, key);
    if r.Done? {
      DoneStage(w0, w, w', plan, d, j, r);
    } else {
      FailedStage(w0, w, w', plan, d, j, r);
    }
    if p.closed {
      StageTargets(w, w', plan, j);
      FirstTarget(w, plan, j);
    }
  }

  lemma StagesCanCommitGives(w: World, plan: Plan, j: nat)
    requires plan.WellFormed() && StagesCanCommit(w, plan) && plan.FirstBuild() <= j < |plan.steps|
    ensures CanCommit(w, plan, j)
  {
  }

  lemma CanStillCommit(w0: World, w: World, plan: Plan, j: nat)
    requires plan.WellFormed() && j < |plan.steps|
    requires Cached(w, KeyAt(plan.inputs, j)) <==> Cached(w0, KeyAt(plan.inputs, j))
    ensures CanCommit(w0, plan, j) ==> CanCommit(w, plan, j)
  {
  }

  lemma SameKeysCanCommit(w: World, w': World, plan: Plan)
    requires plan.WellFormed() && w'.instances == w.instances
    ensures StagesCanCommit(w', plan) <==> StagesCanCommit(w, plan)
  {
  }

  lemma FirstTarget(w: World, plan: Plan, j: nat)
    requires plan.WellFormed() && j < |plan.steps| && TargetsFree(w, plan.inputs, j)
    ensures !Cached(w, KeyAt(plan.inputs, j))
  {
  }

  lemma DoneStage(w0: World, w: World, w': World, plan: Plan, d: nat, j: nat, r: StageResult)
    requires plan.WellFormed() && d <= j < |plan.steps| && StagePromise(w, w', plan, j, r) && r.Done?
    requires Cached(w, KeyAt(plan.inputs, j)) <==> Cached(w0, KeyAt(plan.inputs, j))
    ensures Cached(w', KeyAt(plan.inputs, j))
    ensures ParentInPlace(plan, j + 1, Some(r.entry), w')
    ensures plan.now <= w.now ==> StampedSince(w', KeyAt(plan.inputs, j), plan.now - plan.Ceiling())
    ensures !plan.noCache && NoneCached(w0, plan, d, j) ==> NoneCached(w0, plan, d, j + 1)
  {
  }

  lemma FailedStage(w0: World, w: World, w': World, plan: Plan, d: nat, j: nat, r: StageResult)
    requires plan.WellFormed() && d <= j < |plan.steps| && StagePromise(w, w', plan, j, r) && !r.Done?
    requires Cached(w', KeyAt(plan.inputs, j)) ==> Grown(w0, w', plan, d, j + 1)
    requires !Cached(w', KeyAt(plan.inputs, j)) ==> GrownWithHole(w0, w', plan, d, j)
    requires SameKeys(w, w') ==> Grown(w0, w', plan, d, j)
    requires Cached(w, KeyAt(plan.inputs, j)) <==> Cached(w0, KeyAt(plan.inputs, j))
    ensures StoppedAt(w0, w', plan, d, j, r)
  {
    hide Grown, GrownWithHole, KeyAt;
    if !plan.noCache && !Cached(w', KeyAt(plan.inputs, j)) {
      assert SameKeys(w, w');
    }
  }

  /** The finished template was stamped at most the ceiling before the build was planned. */
  ghost predicate TemplateRecent(p: Promise, plan: Plan, w: World)
    requires plan.WellFormed()
  {
    p.pace.Some? ==> StampedSince(w, plan.BuildKey(), plan.now - plan.Ceiling())
  }

  ghost predicate SameStamps(w: World, w': World) {
    && SameKeys(w, w')
    && forall k :: Cached(w, k) ==> w'.instances[CacheName(k)].stamps == w.instances[CacheName(k)].stamps
  }

  lemma SameInstancesSameStamps(w: World, w': World)
    requires w'.instances == w.instances
    ensures SameStamps(w, w')
  {
  }

  lemma StillRecent(p: Promise, plan: Plan, w: World, w': World)
    requires plan.WellFormed() && TemplateRecent(p, plan, w) && SameStamps(w, w')
    ensures TemplateRecent(p, plan, w')
  {
  }

  ghost predicate ListingNamed(entries: seq<CacheEntry>) {
    forall e :: e in entries ==> e.instance == CacheName(e.stamps.key)
  }

  lemma AllBuilt(p: Promise, w0: World, w: World, plan: Plan, template: Option<CacheEntry>, rebuilt: nat)
    requires plan.WellFormed() && plan.FirstBuild() + rebuilt == |plan.steps|
    requires Progress(p, plan, w0, w, |plan.steps|, template)
    ensures BuildOutcome(w0, w, plan, None, rebuilt) && OnAclListed(w, plan.entries) && SameHost(w0, w)
    ensures template.Some? && ParentInPlace(plan, |plan.steps|, template, w)
    ensures TemplateRecent(p, plan, w)
  {
  }

  /** The alias carries the finished template: key and content. */
  function WithTemplate(images: map<string, Image>, plan: Plan): map<string, Image>
    requires plan.WellFormed()
  {
    images[plan.alias := Image(Some(plan.BuildKey()), Denotes(plan.BuildKey()))]
  }

  /** What a build leaves in the cache and under the alias, by the way it ended. */
  ghost predicate Built(w0: World, w: World, plan: Plan, publish: bool, failure: Option<Failure>, rebuilt: nat)
    requires plan.WellFormed()
  {
    if failure.None? || failure.value.CleanupError? then
      && BuildOutcome(w0, w, plan, None, rebuilt)
      && w.images == if publish then WithTemplate(w0.images, plan) else w0.images
    else
      match failure.value
      case StageError(result) => BuildOutcome(w0, w, plan, Some(result), rebuilt) && w.images == w0.images
      case PublishError =>
        && publish && BuildOutcome(w0, w, plan, None, rebuilt)
        && (w.images == w0.images || w.images == WithTemplate(w0.images, plan))
      case _ => SameKeys(w0, w) && w.images == w0.images && rebuilt == 0
  }

  /** A run got through all its stages. */
  predicate AllStages(r: RunReport) {
    r.Finished? || r.failure.PublishError? || r.failure.CleanupError?
  }

  lemma AllStagesIs(r: RunReport)
    ensures AllStages(r) <==> r.Finished? || r.failure.PublishError? || r.failure.CleanupError?
  {
  }

  predicate RefusedAsStale(r: RunReport) {
    r.Raised? && r.failure.StaleEntry?
  }

  /** What a run leaves behind. A refused stale entry leaves everything alone; otherwise the
      manifest is saved first, and a no-op, or a run that cannot save it, does no more than that. */
  ghost predicate CacheOutcome(w0: World, w: World, plan: Plan, publish: bool, r: RunReport)
    requires plan.WellFormed()
  {
    if RefusedAsStale(r) then w == w0 && r.rebuilt == 0
    else if r.Raised? && r.failure.SaveFailed? then w == w0.(now := w.now) && r.rebuilt == 0
    else
      && w.manifest == plan.manifest
      && if plan.IsNoop() then
           && r == Finished(false, false, 0) && SameKeys(w0, w) && w.images == w0.images
         else
           && (r.Finished? ==> r.published == publish)
           && Built(w0, w, plan, publish, if r.Finished? then None else Some(r.failure), r.rebuilt)
  }

  /** What a failure to apply the ACL leaves of it. */
  predicate AclLeft(before: Option<seq<string>>, after: Option<seq<string>>, allow: seq<string>, step: AclStep) {
    match step
    case PolicyStep => after == before
    case CreateStep => after == before || (before.None? && after == Some([]))
    case RulesStep => after == Some(allow) || after == if before.None? then Some([]) else before
  }

  /** What a run leaves of the build ACL. Once the ACL has been applied, it can outlive the run
      only with a kept worker or a failed cleanup in the report; and Incus only ever refuses to
      delete it because of an instance that is not a cache entry. */
  ghost predicate AclOutcome(w0: World, w: World, plan: Plan, keep: bool, r: RunReport)
    requires plan.WellFormed()
  {
    match r
    case Finished(policy, _, _) =>
      && (policy <==> !plan.IsNoop() && plan.FirstBuild() < |plan.steps|)
      && w.acl == if policy then None else w0.acl
    case Raised(failure, policy, kept, cleanupFailed, refused, _) =>
      && (policy ==> plan.FirstBuild() < |plan.steps|)
      && (policy && w.acl.Some? ==> kept.Some? || cleanupFailed)
      && (cleanupFailed ==> policy)
      && (!policy && !failure.AclFailed? ==> w.acl == w0.acl)
      && (failure.AclFailed? ==>
            !policy && plan.FirstBuild() < |plan.steps| && !cleanupFailed
            && AclLeft(w0.acl, w.acl, plan.inputs.allow, failure.step))
      && (kept.Some? ==> keep && policy && failure.StageError? && failure.result.StageFailed?)
      && (keep && failure.StageError? && failure.result.StageFailed? ==> kept.Some? && w.acl == Some(plan.inputs.allow))
      && (failure.CleanupError? ==> cleanupFailed)
      && (refused ==> cleanupFailed && exists n :: n in w.instances && w.instances[n].acl && !n.CacheName?)
  }

  /** The workers a run may leave when deletions work. */
  ghost predicate WorkersAfter(w: World, failure: Option<Failure>) {
    if failure.Some? && failure.value.StageError? then WorkersLeft(w, failure.value.result) else NoWorkers(w)
  }

  /** Whether a run got past listing the leftover workers. */
  ghost predicate Attempting(plan: Plan, r: RunReport)
    requires plan.WellFormed()
  {
    !plan.IsNoop() && (r.Raised? ==> !r.failure.StaleEntry? && !r.failure.SaveFailed? && !r.failure.ListFailed?)
  }

  /** No worker outlives a run but the one it reports, or one that a failed `init` or commit left
      stopped and off the ACL; so only an instance that is none of the builder's can keep the ACL. */
  ghost predicate WorkersOutcome(w: World, r: RunReport) {
    && WorkersAfter(w, if r.Finished? then None else Some(r.failure))
    && (r.Raised? && r.refused ==> exists n :: n in w.instances && w.instances[n].acl && n.OtherName?)
  }

  /** Everything but the cache entries is as it was. */
  ghost predicate OnlyEntriesTouched(w: World, w': World) {
    forall n: Name :: !n.CacheName? ==>
      (n in w'.instances <==> n in w.instances) && (n in w.instances ==> w'.instances[n] == w.instances[n])
  }

  lemma WorkersConcluded(w3: World, w: World, failure: Option<Failure>, report: RunReport, kept: Option<Name>)
    requires WorkersAfter(w3, failure) && OnlyEntriesTouched(w3, w)
    requires kept.Some? <==> failure.Some? && failure.value.StageError? && failure.value.result.StageFailed?
                             && failure.value.result.kept.Some?
    requires report.Raised? && report.refused ==>
               kept.None? && exists n :: n in w.instances && w.instances[n].acl && !n.CacheName?
    requires match report
             case Finished(_, _, _) => failure.None?
             case Raised(f, _, _, _, _, _) => failure == Some(f) || (failure.None? && f.CleanupError?)
    ensures WorkersOutcome(w, report)
  {
    assert forall n :: n in w.instances && n.WorkerName? ==> n in w3.instances && w.instances[n] == w3.instances[n];
    if report.Raised? && report.refused {
      var n :| n in w.instances && w.instances[n].acl && !n.CacheName?;
      assert n.OtherName?;
    }
  }

  lemma NotAttempting(plan: Plan, r: RunReport)
    requires plan.WellFormed()
    requires plan.IsNoop() || (r.Raised? && (r.failure.StaleEntry? || r.failure.SaveFailed? || r.failure.ListFailed?))
    ensures !Attempting(plan, r) && (plan.IsNoop() || !AllStages(r))
  {
  }

  lemma NothingTouched(w: World, w': World)
    requires w'.instances == w.instances
    ensures OnlyEntriesTouched(w, w')
  {
  }

  lemma NoWorkersAfter(w: World, w': World, failure: Option<Failure>)
    requires NoWorkers(w) && w'.instances == w.instances && (failure.Some? ==> !failure.value.StageError?)
    ensures WorkersAfter(w', failure)
  {
  }

  lemma StageWorkersAfter(w: World, r: StageResult)
    requires WorkersLeft(w, r)
    ensures WorkersAfter(w, Some(StageError(r)))
  {
  }

  /** A commit that failed without leaving an entry has left its worker, with the stage's content. */
  ghost predicate StrandedAt(w: World, plan: Plan, r: StageResult, j: nat)
    requires plan.WellFormed() && j < |plan.steps|
  {
    r.CommitFailed? && !Cached(w, KeyAt(plan.inputs, j)) ==> Stranded(w, KeyAt(plan.inputs, j))
  }

  /** The same of a whole run. */
  ghost predicate StrandedAfter(w: World, plan: Plan, failure: Option<Failure>, rebuilt: nat)
    requires plan.WellFormed()
  {
    failure.Some? && failure.value.StageError? ==>
      && plan.FirstBuild() + rebuilt < |plan.steps|
      && StrandedAt(w, plan, failure.value.result, plan.FirstBuild() + rebuilt)
  }

  lemma StrandedIs(w: World, plan: Plan, r: StageResult, j: nat)
    requires plan.WellFormed() && j < |plan.steps|
    requires r.CommitFailed? && !Cached(w, KeyAt(plan.inputs, j)) ==> Stranded(w, KeyAt(plan.inputs, j))
    ensures StrandedAt(w, plan, r, j)
  {
  }

  lemma OnlyAclIs(w: World, w': World)
    requires OnlyAcl(w, w')
    ensures w' == w.(acl := w'.acl, now := w'.now) && w'.now >= w.now
  {
  }

  lemma StaysUntouched(origin: World, w: World, w1: World, w2: World)
    requires Untouched(origin, w) && w1.instances == w.instances && (w2 == w1 || SameEntries(w1, w2))
    ensures Untouched(origin, w2)
  {
  }

  lemma StaysReplaceable(origin: World, w: World, w': World, key: Key)
    requires Replaceable(origin, w, key) && SameEntries(w, w')
    ensures Replaceable(origin, w', key)
  {
  }

  lemma ReplaceableIsIntactBut(origin: World, w: World, key: Key)
    requires Replaceable(origin, w, key)
    ensures IntactBut(origin, w, key)
  {
    IntactIsIntactBut(origin, w, key);
  }

  lemma SameAcl(w: World, w': World)
    requires SameHost(w, w')
    ensures w'.acl == w.acl
  {
  }

  lemma SameStampsKeys(w: World, w': World)
    requires SameStamps(w, w')
    ensures SameKeys(w, w')
  {
  }

  lemma NothingStranded(w: World, plan: Plan, failure: Option<Failure>, rebuilt: nat)
    requires plan.WellFormed() && (failure.None? || !failure.value.StageError?)
    ensures StrandedAfter(w, plan, failure, rebuilt)
  {
  }

  lemma StageStranded(w: World, plan: Plan, r: StageResult, rebuilt: nat)
    requires plan.WellFormed() && plan.FirstBuild() + rebuilt < |plan.steps|
    requires StrandedAt(w, plan, r, plan.FirstBuild() + rebuilt)
    ensures StrandedAfter(w, plan, Some(StageError(r)), rebuilt)
  {
  }

  lemma StillStranded(w: World, w': World, plan: Plan, failure: Option<Failure>, rebuilt: nat)
    requires plan.WellFormed() && StrandedAfter(w, plan, failure, rebuilt)
    requires SameKeys(w, w') && OnlyEntriesTouched(w, w')
    ensures StrandedAfter(w', plan, failure, rebuilt)
  {
    if failure.Some? && failure.value.StageError? {
      var key := KeyAt(plan.inputs, plan.FirstBuild() + rebuilt);
      if Stranded(w, key) {
        var n :| n in w.instances && n.WorkerName? && w.instances[n].content == Denotes(key);
        assert n in w'.instances && w'.instances[n].content == Denotes(key);
      }
    }
  }

  /** The failure of a commit whose target name already existed. */
  predicate NameTaken(failure: Option<Failure>) {
    failure.Some? && failure.value.StageError? && failure.value.result.CommitFailed? && failure.value.result.taken
  }

  lemma NotTaken(result: StageResult)
    requires result.CommitFailed? ==> !result.taken
    ensures !NameTaken(Some(StageError(result)))
  {
  }

  lemma OtherFailure(failure: Option<Failure>)
    requires failure.None? || !failure.value.StageError?
    ensures !NameTaken(failure)
  {
  }

  lemma CleanupIsBuilt(w0: World, w: World, plan: Plan, publish: bool, rebuilt: nat)
    requires plan.WellFormed() && Built(w0, w, plan, publish, None, rebuilt)
    ensures Built(w0, w, plan, publish, Some(CleanupError), rebuilt)
  {
  }

  /** A plan stays valid while only workers, the ACL and the manifest change. */
  lemma PlanStaysValid(w: World, w': World, plan: Plan)
    requires PlanOf(w, plan) && SameEntries(w, w') && w'.images == w.images
    ensures PlanOf(w', plan)
  {
    if !plan.IsNoop() {
      forall e | e in plan.entries
        ensures e.instance in w'.instances && w'.instances[e.instance].stamps == Some(e.stamps)
      {
        assert Cached(w, e.stamps.key);
      }
    }
  }

  lemma AclStaysValid(w: World, w': World, plan: Plan)
    requires PlanOf(w, plan) && w'.instances == w.instances && w'.images == w.images
    ensures PlanOf(w', plan)
  {
    PlanStaysValid(w, w', plan);
  }

  /** The build before its ACL is released. */
  ghost predicate Attempted(w0: World, w: World, plan: Plan, publish: bool, failure: Option<Failure>,
                            policy: bool, rebuilt: nat)
    requires plan.WellFormed()
  {
    && Built(w0, w, plan, publish, failure, rebuilt)
    && (failure.Some? ==> failure.value.AclFailed? || failure.value.StageError? || failure.value.PublishError?)
    && w.manifest == w0.manifest && OnAclListed(w, plan.entries)
    && (policy ==> plan.FirstBuild() < |plan.steps| && w.acl == Some(plan.inputs.allow))
    && (!policy && (failure.None? || !failure.value.AclFailed?) ==>
         w.acl == w0.acl && plan.FirstBuild() == |plan.steps|)
    && (failure.Some? && failure.value.AclFailed? ==>
          !policy && plan.FirstBuild() < |plan.steps|
          && AclLeft(w0.acl, w.acl, plan.inputs.allow, failure.value.step))
    && (failure.Some? && failure.value.StageError? ==> policy)
  }

  lemma AttemptedNothing(w: World, w': World, plan: Plan, publish: bool, step: AclStep)
    requires PlanOf(w, plan) && !plan.IsNoop() && w' == w.(acl := w'.acl, now := w'.now)
    requires plan.FirstBuild() < |plan.steps| && AclLeft(w.acl, w'.acl, plan.inputs.allow, step)
    ensures Attempted(w, w', plan, publish, Some(AclFailed(step)), false, 0)
  {
  }

  lemma AttemptedStages(w: World, w1: World, w': World, plan: Plan, publish: bool, result: StageResult, policy: bool,
        rebuilt: nat)
    requires plan.WellFormed() && w1 == w.(acl := w1.acl, now := w1.now)
    requires policy ==> plan.FirstBuild() < |plan.steps| && w1.acl == Some(plan.inputs.allow)
    requires !policy ==> plan.FirstBuild() == |plan.steps| && w1.acl == w.acl
    requires SameHost(w1, w') && OnAclListed(w', plan.entries) && BuildOutcome(w1, w', plan, Some(result), rebuilt)
    ensures Attempted(w, w', plan, publish, Some(StageError(result)), policy, rebuilt)
  {
    SomeStageLeft(w1, w', plan, result, rebuilt);
    hide BuildOutcome;
    SameKeysOutcome(w, w1, w', w', plan, Some(result), rebuilt);
  }

  lemma SomeStageLeft(w0: World, w: World, plan: Plan, result: StageResult, rebuilt: nat)
    requires plan.WellFormed() && BuildOutcome(w0, w, plan, Some(result), rebuilt)
    ensures plan.FirstBuild() + rebuilt < |plan.steps|
  {
  }

  lemma AllStagesThere(w0: World, w: World, plan: Plan, rebuilt: nat)
    requires plan.WellFormed() && BuildOutcome(w0, w, plan, None, rebuilt)
    ensures plan.FirstBuild() + rebuilt == |plan.steps|
  {
  }

  lemma AttemptedAll(w: World, w1: World, w2: World, w': World, plan: Plan, publish: bool,
                     failure: Option<Failure>, policy: bool, rebuilt: nat)
    requires plan.WellFormed() && w1 == w.(acl := w1.acl, now := w1.now)
    requires policy ==> plan.FirstBuild() < |plan.steps| && w1.acl == Some(plan.inputs.allow)
    requires !policy ==> plan.FirstBuild() == |plan.steps| && w1.acl == w.acl
    requires SameHost(w1, w2) && OnAclListed(w2, plan.entries) && BuildOutcome(w1, w2, plan, None, rebuilt)
    requires w' == w2.(images := w'.images, now := w'.now)
    requires failure.None? ==> w'.images == if publish then WithTemplate(w2.images, plan) else w2.images
    requires failure.Some? ==> publish && failure.value.PublishError?
                               && (w'.images == w2.images || w'.images == WithTemplate(w2.images, plan))
    ensures Attempted(w, w', plan, publish, failure, policy, rebuilt)
  {
    AllStagesThere(w1, w2, plan, rebuilt);
    hide BuildOutcome;
    SameKeysOutcome(w, w1, w2, w', plan, None, rebuilt);
  }

  /** Only the keys and the images matter to the outcome. */
  lemma SameKeysBuilt(w0: World, w1: World, w: World, w': World, plan: Plan, publish: bool,
                      failure: Option<Failure>, rebuilt: nat)
    requires plan.WellFormed() && Built(w1, w, plan, publish, failure, rebuilt)
    requires SameKeys(w0, w1) && w1.images == w0.images
    requires SameKeys(w, w') && w'.images == w.images
    ensures Built(w0, w', plan, publish, failure, rebuilt)
  {
    hide BuildOutcome, SameKeys, WithTemplate;
    forall r | BuildOutcome(w1, w, plan, r, rebuilt) ensures BuildOutcome(w0, w', plan, r, rebuilt) {
      SameKeysOutcome(w0, w1, w, w', plan, r, rebuilt);
    }
    if SameKeys(w1, w) {
      SameKeysTransitive(w0, w1, w, w');
    }
  }

  lemma SameKeysTransitive(w0: World, w1: World, w: World, w': World)
    requires SameKeys(w0, w1) && SameKeys(w1, w) && SameKeys(w, w')
    ensures SameKeys(w0, w')
  {
  }

  lemma SameKeysOutcome(w0: World, w1: World, w: World, w': World, plan: Plan, r: Option<StageResult>, rebuilt: nat)
    requires plan.WellFormed() && SameKeys(w0, w1) && SameKeys(w, w')
    requires BuildOutcome(w1, w, plan, r, rebuilt)
    ensures BuildOutcome(w0, w', plan, r, rebuilt)
  {
    hide Grown, GrownWithHole, NoneCached, KeyAt;
    var d, j := plan.FirstBuild(), plan.FirstBuild() + rebuilt;
    SameKeysGrown(w0, w1, w, w', plan, d, j);
    if j < |plan.steps| {
      SameKeysGrown(w0, w1, w, w', plan, d, j + 1);
    }
  }

  lemma SameKeysGrown(w0: World, w1: World, w: World, w': World, plan: Plan, d: nat, j: nat)
    requires plan.WellFormed() && j <= |plan.steps| && SameKeys(w0, w1) && SameKeys(w, w')
    ensures Grown(w1, w, plan, d, j) ==> Grown(w0, w', plan, d, j)
    ensures NoneCached(w1, plan, d, j) ==> NoneCached(w0, plan, d, j)
    ensures j < |plan.steps| && GrownWithHole(w1, w, plan, d, j) ==> GrownWithHole(w0, w', plan, d, j)
  {
    hide Cached, Between, KeyAt;
  }

  lemma StepKey(plan: Plan, j: nat)
    requires plan.WellFormed() && j < |plan.steps|
    ensures j < |plan.inputs.stages| && plan.steps[j].key.key == KeyAt(plan.inputs, j)
  {
  }

  lemma ExistingNamed(entries: seq<CacheEntry>, key: Key)
    requires ListingNamed(entries)
    ensures Lookup(entries, key).Some? ==> Lookup(entries, key).value.instance == CacheName(key)
  {
  }

  lemma ParentSurvives(w: World, w': World, plan: Plan, j: nat, parent: Option<CacheEntry>, worker: Name)
    requires plan.WellFormed() && j <= |plan.steps| && ParentInPlace(plan, j, parent, w)
    requires OnlyTouches(w, w', worker) && worker.WorkerName?
    ensures j > 0 ==> Cached(w', KeyAt(plan.inputs, j - 1))
    ensures w'.manifest == w.manifest
  {
    TouchedWorker(w, w', worker);
  }

  lemma WorkerNameFree(w: World, worker: Name)
    requires NoWorkers(w) && worker.WorkerName?
    ensures worker !in w.instances
  {
  }

  /** An entry that is in the way of a commit is found in the listing, to be replaced. */
  lemma FoundToReplace(w: World, w': World, plan: Plan, j: nat, worker: Name)
    requires plan.WellFormed() && j < |plan.steps| && OnlyTouches(w, w', worker) && worker.WorkerName?
    requires CanCommit(w, plan, j)
    requires Cached(w, KeyAt(plan.inputs, j)) ==> HasEntry(plan.entries, KeyAt(plan.inputs, j))
    ensures Cached(w', KeyAt(plan.inputs, j)) ==> plan.noCache && Lookup(plan.entries, KeyAt(plan.inputs, j)).Some?
  {
    TouchedWorker(w, w', worker);
  }

  /** A stage that ended before its commit changed no entry. */
  lemma NothingCommitted(w: World, w1: World, w': World, plan: Plan, j: nat, worker: Name, r: StageResult)
    requires plan.WellFormed() && j < |plan.steps| && worker.WorkerName?
    requires OnlyTouches(w, w1, worker) && (w' == w1 || OnlyTouches(w1, w', worker))
    requires r.InitFailed? || r.StageFailed?
    ensures StagePromise(w, w', plan, j, r)
  {
    TouchedWorker(w, w1, worker);
    if w' != w1 {
      TouchedWorker(w1, w', worker);
    }
  }

  /** A stage that reached its commit. */
  lemma StageCommitted(w: World, w1: World, w': World, plan: Plan, j: nat, worker: Name, r: StageResult,
                       replacing: bool)
    requires plan.WellFormed() && j < |plan.steps| && worker.WorkerName?
    requires OnlyTouches(w, w1, worker) && CommitPromise(w1, w', KeyAt(plan.inputs, j), worker, r, replacing)
    requires replacing ==> plan.noCache
    ensures StagePromise(w, w', plan, j, r)
    ensures NoWorkers(w) ==> WorkersLeft(w', r)
  {
    TouchedWorker(w, w1, worker);
    if NoWorkers(w) {
      CommittedWorkerLeft(w, w1, w', worker, r);
    }
  }

  lemma FailedWorkerLeft(w: World, w1: World, w': World, worker: Name, r: StageResult)
    requires NoWorkers(w) && OnlyTouches(w, w1, worker) && worker.WorkerName?
    requires match r
             case InitFailed =>
               && w' == w1
               && (worker in w'.instances && worker !in w.instances ==>
                     w'.instances[worker].guest.Off? && !w'.instances[worker].acl)
             case StageFailed(Some(kept)) => w' == w1 && kept == worker
             case StageFailed(None) => OnlyTouches(w1, w', worker) && worker !in w'.instances
             case _ => false
    ensures WorkersLeft(w', r)
  {
    TouchedWorker(w, w1, worker);
    if w' != w1 {
      TouchedWorker(w1, w', worker);
    }
  }

  lemma CommittedWorkerLeft(w: World, w1: World, w': World, worker: Name, r: StageResult)
    requires NoWorkers(w) && OnlyTouches(w, w1, worker) && worker.WorkerName? && (r.Done? || r.CommitFailed?)
    requires CommitWorkers(w1, w', worker, r.Done?)
    ensures WorkersLeft(w', r)
  {
    TouchedWorker(w, w1, worker);
  }

  lemma DoneLeavesNoWorkers(w: World, r: StageResult)
    requires WorkersLeft(w, r) && r.Done?
    ensures NoWorkers(w)
  {
  }

  lemma NoWorkersStill(w: World, w': World)
    requires NoWorkers(w) && w'.instances == w.instances
    ensures NoWorkers(w')
  {
  }

  // ---- how a run concludes -----------------------------------------------------------------------

  lemma StaleIsTooOld(plan: Plan)
    requires plan.WellFormed()
    ensures !plan.Stale() ==> !TooOld(plan)
    ensures plan.ReusedEntry().None? ==> !TooOld(plan)
  {
  }

  lemma RefusedStale(w: World, plan: Plan, publish: bool, keep: bool)
    requires plan.WellFormed()
    ensures CacheOutcome(w, w, plan, publish, Raised(StaleEntry, false, None, false, false, 0))
    ensures AclOutcome(w, w, plan, keep, Raised(StaleEntry, false, None, false, false, 0))
  {
  }

  lemma SaveRefused(w: World, w': World, plan: Plan, publish: bool, keep: bool)
    requires plan.WellFormed() && w' == w.(now := w'.now)
    ensures CacheOutcome(w, w', plan, publish, Raised(SaveFailed, false, None, false, false, 0))
    ensures AclOutcome(w, w', plan, keep, Raised(SaveFailed, false, None, false, false, 0))
  {
  }

  lemma RefusedIs(r: RunReport)
    requires r.Raised? && r.failure.StaleEntry?
    ensures RefusedAsStale(r)
  {
  }

  lemma NotRefusedAsStale(r: RunReport)
    requires r.Raised? ==> !r.failure.StaleEntry?
    ensures !RefusedAsStale(r)
  {
  }

  lemma NoopOutcome(w: World, w': World, plan: Plan, publish: bool, keep: bool)
    requires plan.WellFormed() && plan.IsNoop() && w' == w.(manifest := plan.manifest, now := w'.now)
    ensures CacheOutcome(w, w', plan, publish, Finished(false, false, 0))
    ensures AclOutcome(w, w', plan, keep, Finished(false, false, 0))
  {
  }

  lemma ListingFailed(w0: World, w1: World, w2: World, plan: Plan, publish: bool, keep: bool)
    requires plan.WellFormed() && !plan.IsNoop() && w1 == w0.(manifest := plan.manifest, now := w1.now)
    requires SameHost(w1, w2) && SameEntries(w1, w2)
    ensures CacheOutcome(w0, w2, plan, publish, Raised(ListFailed, false, None, false, false, 0))
    ensures AclOutcome(w0, w2, plan, keep, Raised(ListFailed, false, None, false, false, 0))
  {
  }

  lemma LeftoversStayValid(w0: World, w1: World, w2: World, plan: Plan)
    requires PlanOf(w0, plan) && w1 == w0.(manifest := plan.manifest, now := w1.now) && w1.now >= w0.now
    requires SameHost(w1, w2) && SameEntries(w1, w2)
    ensures PlanOf(w2, plan) && w0.now <= w2.now && w2.manifest == plan.manifest
  {
    PlanStaysValid(w0, w2, plan);
  }

  lemma ReadyToRelease(w: World, w': World, plan: Plan, publish: bool, failure: Option<Failure>, policy: bool,
                       rebuilt: nat)
    requires plan.WellFormed() && Attempted(w, w', plan, publish, failure, policy, rebuilt)
    requires PlanOf(w, plan) && !plan.IsNoop()
    ensures OnAclListed(w', plan.entries) && ListingNamed(plan.entries)
  {
  }

  lemma RunConcluded(w0: World, w1: World, w2: World, w3: World, w: World, plan: Plan, publish: bool, keep: bool,
                     failure: Option<Failure>, policy: bool, rebuilt: nat, kept: Option<Name>,
                     released: bool, refused: bool, report: RunReport)
    requires plan.WellFormed() && !plan.IsNoop() && w1 == w0.(manifest := plan.manifest, now := w1.now)
    requires SameHost(w1, w2) && SameEntries(w1, w2)
    requires Attempted(w2, w3, plan, publish, failure, policy, rebuilt)
    requires kept.Some? <==> keep && failure.Some? && failure.value.StageError? && failure.value.result.StageFailed?
    requires !(kept.None? && policy) ==> w == w3 && released && !refused
    requires kept.None? && policy ==>
               && SameStamps(w3, w) && w.images == w3.images && w.manifest == w3.manifest
               && (released ==> w.acl.None? && !refused)
               && (refused ==> exists n :: n in w.instances && w.instances[n].acl && !n.CacheName?)
    requires report == if failure.None? && released then Finished(policy, publish, rebuilt)
                       else if failure.None? then Raised(CleanupError, policy, None, true, refused, rebuilt)
                       else Raised(failure.value, policy, kept, !released, refused, rebuilt)
    ensures CacheOutcome(w0, w, plan, publish, report) && AclOutcome(w0, w, plan, keep, report)
  {
    SameKeysBuilt(w0, w2, w3, w, plan, publish, failure, rebuilt);
    if failure.None? {
      CleanupIsBuilt(w0, w, plan, publish, rebuilt);
    }
  }

  lemma StaleCannotFinish(w: World, plan: Plan)
    requires plan.WellFormed() && plan.Stale()
    ensures !CanFinish(w, plan, false)
  {
  }

  /** Everything was built, so nothing was in the way. */
  lemma BuiltCouldCommit(w0: World, w2: World, w3: World, plan: Plan, publish: bool, policy: bool, rebuilt: nat)
    requires plan.WellFormed() && Attempted(w2, w3, plan, publish, None, policy, rebuilt) && SameEntries(w0, w2)
    ensures StagesCanCommit(w0, plan)
    ensures plan.FirstBuild() < |plan.steps| ==> policy && w3.acl.Some?
  {
  }

  lemma SameEntriesCanCommit(w0: World, w1: World, w2: World, plan: Plan)
    requires plan.WellFormed() && w1.instances == w0.instances && SameEntries(w1, w2)
    ensures StagesCanCommit(w2, plan) <==> StagesCanCommit(w0, plan)
    ensures SameEntries(w0, w2)
  {
  }

  lemma AclStaysOurs(p: Promise, w: World, w': World)
    requires Holds(p, w) && Holds(p, w')
    ensures AclOurs(w') <==> AclOurs(w)
  {
  }

  lemma OthersOnAcl(w: World, w': World)
    requires NoWorkers(w) && OnlyEntriesTouched(w, w')
    requires exists n :: n in w'.instances && w'.instances[n].acl && !n.CacheName?
    ensures !AclOurs(w)
  {
    var n :| n in w'.instances && w'.instances[n].acl && !n.CacheName?;
    assert n in w.instances && w.instances[n].acl;
  }

  lemma NoFailureNoWorkers(w: World)
    requires WorkersAfter(w, None)
    ensures NoWorkers(w)
  {
  }

  lemma CanFinishIs(w: World, plan: Plan, allowStale: bool)
    requires plan.WellFormed() && (plan.Stale() ==> allowStale)
    ensures CanFinish(w, plan, allowStale) <==>
              StagesCanCommit(w, plan) && (plan.FirstBuild() < |plan.steps| ==> AclOurs(w))
  {
  }

  lemma PolicyHasStages(w2: World, w3: World, plan: Plan, publish: bool, failure: Option<Failure>, policy: bool,
                        rebuilt: nat)
    requires plan.WellFormed() && Attempted(w2, w3, plan, publish, failure, policy, rebuilt)
    ensures policy ==> plan.FirstBuild() < |plan.steps|
    ensures failure.Some? ==> !failure.value.StaleEntry? && !failure.value.CleanupError?
  {
  }

  // ---- releasing the ACL and committing, step by step --------------------------------------------

  /** The entries still on the ACL are listed at or after `i`. */
  ghost predicate OnAclFrom(w: World, entries: seq<CacheEntry>, i: nat) {
    forall k :: Cached(w, k) && w.instances[CacheName(k)].acl
      ==> exists m :: i <= m < |entries| && entries[m].stamps.key == k
  }

  /** A detachment puts no entry on the ACL, and takes this one off. */
  ghost predicate TakenOffAcl(w: World, w': World, key: Key, ok: bool) {
    forall k :: Cached(w', k) && w'.instances[CacheName(k)].acl ==>
      Cached(w, k) && w.instances[CacheName(k)].acl && !(ok && k == key)
  }

  lemma ReleaseStarts(w: World, entries: seq<CacheEntry>)
    requires OnAclListed(w, entries) && ListingNamed(entries)
    ensures OnAclFrom(w, entries, 0) && SameStamps(w, w) && OnlyEntriesTouched(w, w) && SameHost(w, w)
    ensures forall i :: 0 <= i < |entries| ==> entries[i].instance == CacheName(entries[i].stamps.key)
  {
    forall k | Cached(w, k) && w.instances[CacheName(k)].acl
      ensures exists m :: 0 <= m < |entries| && entries[m].stamps.key == k
    {
      assert HasEntry(entries, k);
    }
  }

  lemma ReleaseStep(w: World, w': World, entries: seq<CacheEntry>, i: nat)
    requires i < |entries| && OnAclFrom(w, entries, i) && TakenOffAcl(w, w', entries[i].stamps.key, true)
    ensures OnAclFrom(w', entries, i + 1)
  {
  }

  lemma ReleaseSoFar(w0: World, w: World, w': World)
    requires SameStamps(w0, w) && OnlyEntriesTouched(w0, w) && SameHost(w0, w)
    requires SameStamps(w, w') && OnlyEntriesTouched(w, w')
    requires w'.now >= w.now && w'.images == w.images && w'.manifest == w.manifest
    ensures SameStamps(w0, w') && OnlyEntriesTouched(w0, w')
    ensures w'.now >= w0.now && w'.images == w0.images && w'.manifest == w0.manifest
    ensures SameHost(w, w') ==> SameHost(w0, w')
  {
  }

  lemma ReleaseEnds(w0: World, w: World, w': World, entries: seq<CacheEntry>, refused: bool)
    requires SameStamps(w0, w) && OnlyEntriesTouched(w0, w) && SameHost(w0, w)
    requires OnAclFrom(w, entries, |entries|)
    requires w' == w.(acl := w'.acl, now := w'.now) && w'.now >= w.now
    requires refused <==> w.acl.Some? && AclInUse(w)
    ensures SameStamps(w0, w') && OnlyEntriesTouched(w0, w')
    ensures w'.now >= w0.now && w'.images == w0.images && w'.manifest == w0.manifest
    ensures refused ==> exists n :: n in w'.instances && w'.instances[n].acl && !n.CacheName?
  {
    if refused {
      var n :| n in w.instances && w.instances[n].acl;
      assert n.CacheName? ==> Cached(w, n.key);
    }
  }

  /** The workers after a commit: none is new, and its own is gone, or stopped and off the ACL. */
  ghost predicate CommitWorkers(w: World, w': World, worker: Name, done: bool) {
    forall n :: n in w'.instances && n.WorkerName? ==>
      n in w.instances && (n == worker ==> !done && w'.instances[n].guest.Off? && !w'.instances[n].acl)
  }

  lemma StampsCreated(inputs: BuildInputs, j: nat, created: int)
    requires j < |inputs.stages|
    ensures StampsFor(KeyAt(inputs, j), created).created == created
  {
  }

  /** Stamping changes no entry, and no other worker. */
  lemma StampedWorld(w: World, w': World, worker: Name)
    requires OnlyTouches(w, w', worker) && worker.WorkerName? && worker in w.instances && worker in w'.instances
    requires w'.instances[worker].guest.Off? && !w'.instances[worker].acl
    ensures SameEntries(w, w') && CommitWorkers(w, w', worker, false)
  {
    TouchedWorker(w, w', worker);
  }

  /** The entry to be replaced is gone, or still there; nothing else is different. */
  ghost predicate ExistingDropped(w: World, w': World, key: Key) {
    && SameHost(w, w')
    && (forall n :: n != CacheName(key) ==> (n in w'.instances <==> n in w.instances))
    && (forall n :: n != CacheName(key) && n in w.instances ==> w'.instances[n] == w.instances[n])
    && (Cached(w', key) ==> Cached(w, key) && w'.instances[CacheName(key)] == w.instances[CacheName(key)])
  }

  lemma NothingDropped(w: World, key: Key)
    ensures ExistingDropped(w, w, key)
  {
  }

  /** The worker has the name of its entry, or the rename had no effect; a taken name refuses it. */
  ghost predicate Placed(w: World, w': World, worker: Name, key: Key, ok: bool, taken: bool) {
    && SameHost(w, w') && (taken <==> Cached(w, key))
    && OtherEntriesKept(w, w', key)
    && (ok ==> Cached(w', key) && !taken && worker !in w'.instances)
    && (taken ==> Cached(w', key))
    && (!Cached(w', key) ==> worker in w'.instances)
    && (worker in w.instances && Cached(w', key) ==>
          w'.instances[CacheName(key)] == w.instances[if taken then CacheName(key) else worker])
    && (forall n :: n in w'.instances && n.WorkerName? ==> n in w.instances && w'.instances[n] == w.instances[n])
  }

  lemma CompleteAtRest(i: Instance, key: Key)
    requires Complete(i, key)
    ensures i.guest.Off? && !i.acl
  {
  }

  lemma MayReplace(p: Promise, plan: Plan, j: nat)
    requires plan.WellFormed() && Allows(p, plan) && plan.noCache && j < |plan.steps|
    ensures !p.closed && (p.holed ==> KeyAt(plan.inputs, j) in p.among)
  {
  }

  /** After the stamping and the deletion of what it replaces, a worker meets the conditions of its
      commit as it did before. */
  lemma ReadyToPlace(p: Promise, plan: Plan, j: nat, w0: World, w1: World, w2: World, worker: Name, stamps: Stamps)
    requires plan.WellFormed() && j < |plan.steps| && worker.WorkerName?
    requires worker in w0.instances && worker in w1.instances && OnlyTouches(w0, w1, worker) && SameEntries(w0, w1)
    requires w1.instances[worker]
             == w0.instances[worker].(stamps := Some(stamps),
                 lineage := w0.instances[worker].lineage + [stamps.created])
    requires ExistingDropped(w1, w2, KeyAt(plan.inputs, j)) && stamps.created <= w0.now
    requires (p.closed || p.holed) && j > 0 ==> Cached(w0, KeyAt(plan.inputs, j - 1))
    ensures worker in w2.instances && w2.instances[worker] == w1.instances[worker]
    ensures (p.closed || p.holed) && j > 0 ==> Cached(w2, KeyAt(plan.inputs, j - 1))
    ensures w2.manifest == w0.manifest && stamps.created <= w2.now
    ensures InTime(p, w2) ==> InTime(p, w0)
  {
    if j > 0 {
      ChainKeysDistinct(plan.inputs, plan.inputs, j - 1, j);
    }
  }

  /** What a commit leaves behind. */
  ghost predicate CommitPromise(w: World, w': World, key: Key, worker: Name, r: StageResult, replacing: bool) {
    && SameHost(w, w') && (r.Done? || r.CommitFailed?)
    && OtherEntriesKept(w, w', key) && NewEntryOffAcl(w, w', key)
    && CommitWorkers(w, w', worker, r.Done?)
    && (!replacing && Cached(w, key) ==> Cached(w', key) && r.CommitFailed?)
    && (r.Done? ==> Committed(w', key, r.entry, w.now))
    && (r.CommitFailed? && r.taken ==> Cached(w, key))
    && (r.CommitFailed? && !Cached(w', key) ==> Stranded(w', key))
  }

  lemma UnstampedCommit(w: World, w': World, key: Key, worker: Name, replacing: bool)
    requires OnlyTouches(w, w', worker) && worker.WorkerName? && worker in w.instances
    requires worker in w'.instances && Complete(w'.instances[worker], key)
    ensures CommitPromise(w, w', key, worker, CommitFailed(false), replacing)
  {
    hide Denotes;
    StampedWorld(w, w', worker);
  }

  lemma CommitConcluded(w0: World, w1: World, w2: World, w3: World, key: Key, worker: Name, stamps: Stamps,
                        replacing: bool, ok: bool, taken: bool)
    requires OnlyTouches(w0, w1, worker) && worker.WorkerName? && worker in w0.instances && worker in w1.instances
    requires Complete(w1.instances[worker], key) && w1.instances[worker].stamps == Some(stamps)
    requires w0.now - 1000000 < stamps.created
    requires ExistingDropped(w1, w2, key) && (!replacing ==> w2 == w1)
    requires Placed(w2, w3, worker, key, ok, taken)
    ensures CommitPromise(w0, w3, key, worker,
                          if ok then Done(CacheEntry(stamps, CacheName(key))) else CommitFailed(taken), replacing)
    ensures taken ==> Cached(w2, key)
  {
    hide Denotes;
    StampedWorld(w0, w1, worker);
    assert w2.instances[worker] == w1.instances[worker];
  }
}
