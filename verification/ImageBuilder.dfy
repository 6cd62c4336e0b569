/** The incremental image builder, command by command: one stage, one run. A caller passes the
    promise `p` that the host keeps; every method shows that every world it leaves keeps it. */
module ImageBuilder {
  import opened Prelude
  import opened StageKeys
  import opened History
  import opened Host
  import opened BuildPlan
  import opened CacheInvariant
  import opened RunOutcomes
  import opened ActorSteps

  /** The plan as the actor of a build remembers it. */
  ghost function JobOf(plan: Plan): Job {
    Job(plan.inputs, plan.FirstBuild(), plan.noCache, set e | e in plan.entries :: e.stamps.key)
  }

  lemma InStage(plan: Plan, j: nat, worker: Name)
    requires plan.WellFormed() && j < |plan.steps|
    ensures var actor := Building(JobOf(plan), j, Some(worker));
            && WorkingIn(actor, worker) && StageKeyOf(actor) == KeyAt(plan.inputs, j)
            && actor.job.noCache == plan.noCache
  {
  }

  lemma KeepingIsStep(w: World, job: Job, worker: Name)
    ensures Step(w, Discarding(job, worker), w, Releasing(job))
  {
  }

  lemma ToDiscard(job: Job, worker: Name)
    ensures var actor := Discarding(job, worker);
            Unwanted(actor, worker) && AfterRemoval(actor, worker) == Releasing(job)
  {
  }

  lemma JobAllows(plan: Plan)
    ensures JobOf(plan).inputs == plan.inputs && JobOf(plan).first == plan.FirstBuild()
  {
  }

  lemma StagesDone(w: World, plan: Plan)
    requires plan.WellFormed()
    ensures Step(w, Building(JobOf(plan), |plan.steps|, None), w, Releasing(JobOf(plan)))
  {
  }

  lemma JobLists(plan: Plan)
    ensures forall e :: e in plan.entries ==> e.stamps.key in JobOf(plan).listed
  {
  }

  /** The plan is what the actor has read. */
  lemma JobPlanned(w0: World, w1: World, plan: Plan)
    requires PlanOf(w0, plan) && !plan.IsNoop() && w1.instances == w0.instances
    ensures Step(w1, Planning, w1, Listing(JobOf(plan)))
  {
    HitsAreEntries(w0, plan, plan.FirstBuild());
    var job := JobOf(plan);
    forall key ensures key in job.listed <==> key in EntriesOf(w1) {
      if key in EntriesOf(w1) {
        assert Cached(w0, key) && HasEntry(plan.entries, key);
      }
    }
    PlannedBuildIsStep(w1, job);
  }

  /** `run` follows the commands as those of one actor. */
  class Builder {
    const incus: Incus
    ghost var run: seq<Moment>

    constructor (incus: Incus)
      ensures this.incus == incus
    {
      this.incus := incus;
      run := [];
    }

    /** Every world recorded since position `from` keeps the promise, the present one included, and
        the commands that left them are those of one actor. */
    ghost predicate Recorded(p: Promise, from: nat)
      reads this, incus
    {
      && from < |incus.trace| && incus.trace[|incus.trace| - 1] == incus.world && incus.trace[from] == p.origin
      && (forall i :: from <= i < |incus.trace| ==> Holds(p, incus.trace[i]))
      && Follows(run, incus.trace, from)
    }

    /** Where the actor stands. */
    ghost function Acting(): Actor
      reads this
    {
      if run == [] then Idle else run[|run| - 1].actor
    }

    /** A command has been issued: the actor takes the step it stands for. */
    ghost method Log(next: Actor, w: World, trace: seq<World>, from: nat)
      requires Follows(run, trace, from) && trace[|trace| - 1] == w && incus.trace == trace + [incus.world]
      requires Step(w, Acting(), incus.world, next)
      modifies this`run
      ensures Follows(run, incus.trace, from) && Acting() == next
    {
      hide Step;
      FollowsOn(run, trace, from, Moment(incus.world, next, true));
      run := run + [Moment(incus.world, next, true)];
    }

    /** The actor goes on without a command. */
    ghost method Decide(next: Actor, p: Promise, from: nat)
      requires Recorded(p, from) && Step(incus.world, Acting(), incus.world, next)
      modifies this`run
      ensures Recorded(p, from) && Acting() == next
    {
      hide Step, Holds, Solo, Left;
      FollowsOn(run, incus.trace, from, Moment(incus.world, next, false));
      run := run + [Moment(incus.world, next, false)];
    }

    /** One command on a worker. */
    method Do(worker: Name, e: Edit, ghost p: Promise, ghost from: nat) returns (ok: bool)
      requires Recorded(p, from) && worker.WorkerName? && Disciplined(incus.world, worker, e)
      requires WorkingIn(Acting(), worker)
      modifies incus, this
      ensures Acting() == old(Acting())
      ensures Recorded(p, from)
      ensures Applied(old(incus.world), incus.world, worker, e, ok)
      ensures incus.able && worker in old(incus.world).instances ==>
                (Edited(old(incus.world), old(incus.world).instances[worker], e).Some? ==> ok)
    {
      hide Holds, Follows, Step;
      ghost var w, trace := incus.world, incus.trace;
      ok := incus.Apply(worker, e);
      assert incus.trace[|incus.trace| - 1] == incus.world;
      DisciplinedKeeps(p, w, incus.world, worker, e, ok);
      EditIsStep(w, Acting(), incus.world, worker, e, ok);
      Log(Acting(), w, trace, from);
    }

    method PushFiles(worker: Name, files: seq<(string, string)>, ghost p: Promise, ghost from: nat)
      returns (ok: bool)
      requires Recorded(p, from) && worker.WorkerName?
      requires worker in incus.world.instances && incus.world.instances[worker].root == map[]
      requires Answers(incus.world.instances[worker])
      requires WorkingIn(Acting(), worker)
      modifies incus, this
      ensures Acting() == old(Acting())
      ensures Recorded(p, from)
      ensures OnlyTouches(old(incus.world), incus.world, worker)
      ensures ok ==> && worker in incus.world.instances
                     && incus.world.instances[worker]
                        == old(incus.world).instances[worker].(
                             root := Pushed(files, |files|), flushed := incus.world.instances[worker].flushed)
      ensures incus.able ==> ok
    {
      hide Holds, Follows, Step;
      ghost var start := incus.world.instances[worker];
      for i := 0 to |files|
        invariant Recorded(p, from)
        invariant OnlyTouches(old(incus.world), incus.world, worker)
        invariant worker in incus.world.instances && Acting() == old(Acting())
        invariant incus.world.instances[worker]
                  == start.(root := Pushed(files, i), flushed := incus.world.instances[worker].flushed)
      {
        ok := Do(worker, Push(files[i].0, files[i].1), p, from);
        if !ok {
          return;
        }
      }
      ok := true;
    }

    /** Attach, boot and pin. A guest never boots before its NIC carries the ACL. */
    method StartWorker(worker: Name, ghost p: Promise, ghost from: nat) returns (ok: bool)
      requires Recorded(p, from) && worker.WorkerName? && worker in incus.world.instances
      requires WorkingIn(Acting(), worker)
      modifies incus, this
      ensures Acting() == old(Acting())
      ensures Recorded(p, from)
      ensures OnlyTouches(old(incus.world), incus.world, worker)
      ensures ok ==> && worker in incus.world.instances
                     && Answers(incus.world.instances[worker])
                     && incus.world.instances[worker]
                        == old(incus.world).instances[worker].(
                             acl := true, guest := incus.world.instances[worker].guest, pinned := true,
                             flushed := false)
      ensures incus.able && old(incus.world).instances[worker].guest.Off? && old(incus.world).acl.Some? ==>
                ok && incus.world.instances[worker].guest.Settled?
    {
      hide Holds, Follows, Step, Recorded;
      ok := Do(worker, Attach, p, from);
      if !ok { return; }
      ok := Do(worker, Start, p, from);
      if !ok { return; }
      ok := Do(worker, AwaitAgent, p, from);
      if !ok { return; }
      var _ := Do(worker, AwaitCloudInit, p, from);
      ok := Do(worker, PinHosts, p, from);
    }

    /** Push the stage's files, run its script, and remove the files. */
    method RunScript(plan: Plan, j: nat, worker: Name, ghost p: Promise, ghost from: nat) returns (ok: bool)
      requires Recorded(p, from) && plan.WellFormed() && j < |plan.steps|
      requires worker.WorkerName? && worker in incus.world.instances
      requires var i := incus.world.instances[worker];
               Answers(i) && i.acl && i.pinned && i.root == map[]
               && i.content == Denotes(KeyAt(plan.inputs, j).parent)
      requires incus.world.acl == Some(plan.inputs.allow)
      requires WorkingIn(Acting(), worker)
      modifies incus, this
      ensures Acting() == old(Acting())
      ensures Recorded(p, from)
      ensures OnlyTouches(old(incus.world), incus.world, worker)
      ensures ok ==> && worker in incus.world.instances
                     && incus.world.instances[worker] == old(incus.world).instances[worker].(
                          content := Denotes(KeyAt(plan.inputs, j)),
                          flushed := incus.world.instances[worker].flushed,
                          lineage := incus.world.instances[worker].lineage)
                     && (j > 0 ==> incus.world.instances[worker].lineage == old(incus.world).instances[worker].lineage)
                     && (j == 0 ==> exists born :: old(incus.world).now <= born
                                      && incus.world.instances[worker].lineage == [born])
      ensures incus.able ==> ok
    {
      hide Holds, Follows, Step;
      var key := plan.steps[j].key;
      var files := StageFiles(key);
      ok := PushFiles(worker, files, p, from);
      if !ok { return; }
      ghost var before, began := incus.world, incus.world.now;
      StageRunEffect(before, before.instances[worker], plan.inputs, j);
      ok := Do(worker, StageRun(key), p, from);
      if !ok { return; }
      StageFilesGone(key);
      ok := Do(worker, RemoveFiles(set i | 0 <= i < |files| :: files[i].0), p, from);
      if ok && j == 0 {
        assert incus.world.instances[worker].lineage == [began];
      }
    }

    /** Unpin, flush, stop, and let go of the ACL. The flush is what makes the forced stop safe. */
    method SealWorker(worker: Name, ghost p: Promise, ghost from: nat) returns (ok: bool)
      requires Recorded(p, from) && worker.WorkerName? && worker in incus.world.instances
      requires WorkingIn(Acting(), worker)
      modifies incus, this
      ensures Acting() == old(Acting())
      ensures Recorded(p, from)
      ensures OnlyTouches(old(incus.world), incus.world, worker)
      ensures ok ==> && worker in incus.world.instances
                     && incus.world.instances[worker]
                        == old(incus.world).instances[worker].(
                             pinned := false, flushed := true, guest := Off, acl := false)
      ensures incus.able && Answers(old(incus.world).instances[worker]) ==> ok
    {
      hide Holds, Follows, Step, Recorded;
      ok := Do(worker, UnpinHosts, p, from);
      if !ok { return; }
      ok := Do(worker, Sync, p, from);
      if !ok { return; }
      ok := Do(worker, ForceStop, p, from);
      if !ok { return; }
      ok := Do(worker, Detach, p, from);
    }

    /** Everything between a prepared worker and a finished one. */
    method RunWorker(plan: Plan, j: nat, worker: Name, ghost p: Promise, ghost from: nat) returns (ok: bool)
      requires Recorded(p, from) && plan.WellFormed() && j < |plan.steps|
      requires worker.WorkerName? && worker in incus.world.instances
      requires Prepared(incus.world.instances[worker], KeyAt(plan.inputs, j).parent)
      requires incus.world.acl == Some(plan.inputs.allow)
      requires WorkingIn(Acting(), worker)
      modifies incus, this
      ensures Acting() == old(Acting())
      ensures Recorded(p, from)
      ensures OnlyTouches(old(incus.world), incus.world, worker)
      ensures ok ==> && worker in incus.world.instances
                     && Complete(incus.world.instances[worker], KeyAt(plan.inputs, j))
                     && (j > 0 ==> incus.world.instances[worker].lineage == old(incus.world).instances[worker].lineage)
                     && (j == 0 ==> exists born :: old(incus.world).now <= born
                                      && incus.world.instances[worker].lineage == [born])
      ensures incus.able ==> ok
    {
      hide Holds, Follows, Step, Recorded;
      ok := StartWorker(worker, p, from);
      if !ok { return; }
      ok := RunScript(plan, j, worker, p, from);
      if !ok { return; }
      ok := SealWorker(worker, p, from);
    }

    /** Renames a welcome worker into place. */
    method Place(worker: Name, key: Key, ghost p: Promise, ghost from: nat) returns (ok: bool, taken: bool)
      requires Recorded(p, from) && worker.WorkerName? && worker in incus.world.instances
      requires Welcome(p, incus.world, key, incus.world.instances[worker])
      requires WorkingIn(Acting(), worker)
      requires key == StageKeyOf(Acting())
      modifies incus, this
      ensures Acting() == if ok then Building(old(Acting()).job, old(Acting()).next + 1, None)
                          else Releasing(old(Acting()).job)
      ensures Recorded(p, from) && Placed(old(incus.world), incus.world, worker, key, ok, taken)
      ensures p.holed && ok ==> Intact(p.origin, incus.world)
      ensures incus.able && !taken ==> ok
    {
      hide Holds, Follows, Step;
      ghost var w, trace, actor := incus.world, incus.trace, Acting();
      assert w.instances[worker].guest.Off?;
      hide Welcome;
      ok, taken := incus.Rename(worker, CacheName(key));
      assert incus.trace[|incus.trace| - 1] == incus.world;
      if incus.world.instances != w.instances {
        CommitKeeps(p, w, incus.world, worker, key);
      } else {
        IdleKeeps(p, w, incus.world);
      }
      PlacingIsStep(w, actor, incus.world, worker, ok);
      Log(if ok then Building(actor.job, actor.next + 1, None) else Releasing(actor.job), w, trace, from);
    }

    /** Removes the entry a `--no-cache` build is about to replace; the outcome is not checked. */
    method DeleteExisting(key: Key, ghost worker: Name, ghost p: Promise, ghost from: nat)
      requires Recorded(p, from) && !p.closed && (p.holed ==> Replaceable(p.origin, incus.world, key) && key in p.among)
      requires WorkingIn(Acting(), worker)
      requires key == StageKeyOf(Acting()) && Acting().job.noCache
      modifies incus, this
      ensures Acting() == old(Acting())
      ensures Recorded(p, from) && ExistingDropped(old(incus.world), incus.world, key)
      ensures p.holed ==> IntactBut(p.origin, incus.world, key)
      ensures incus.deletes ==> !Cached(incus.world, key)
    {
      hide Holds, Follows, Step;
      ghost var w, trace := incus.world, incus.trace;
      var _ := incus.Delete(CacheName(key));
      assert incus.trace[|incus.trace| - 1] == incus.world;
      DeleteEntryKeeps(p, w, incus.world, key);
      OthersKept(w, incus.world, CacheName(key));
      ReplacingIsStep(w, Acting(), incus.world, worker);
      Log(Acting(), w, trace, from);
    }

    /** Writes the stamps of stage `j` on its worker. */
    method StampWorker(plan: Plan, j: nat, worker: Name, ghost p: Promise, ghost from: nat)
      returns (ok: bool, stamps: Stamps)
      requires Recorded(p, from) && plan.WellFormed() && j < |plan.steps|
      requires worker.WorkerName? && worker in incus.world.instances
      requires Complete(incus.world.instances[worker], KeyAt(plan.inputs, j))
      requires WorkingIn(Acting(), worker)
      modifies incus, this
      ensures Acting() == old(Acting())
      ensures Recorded(p, from) && OnlyTouches(old(incus.world), incus.world, worker)
      ensures worker in incus.world.instances && Complete(incus.world.instances[worker], KeyAt(plan.inputs, j))
      ensures stamps == StampsFor(KeyAt(plan.inputs, j), stamps.created)
      ensures old(incus.world).now - 1000000 < stamps.created <= old(incus.world).now && stamps.created % 1000000 == 0
      ensures ok ==> incus.world.instances[worker]
                     == old(incus.world).instances[worker].(
                          stamps := Some(stamps),
                              lineage := old(incus.world).instances[worker].lineage + [stamps.created])
      ensures incus.able ==> ok
    {
      hide Holds, Denotes, KeyAt, StampsFor;
      var key := plan.steps[j].key;
      var created := WholeSeconds(incus.world.now);
      stamps := Stamps(key.key, key.stage.name, key.parent, plan.pin.fingerprint, created,
                       key.generation, key.stageGeneration, plan.inputs.allow, key.script, key.inputs);
      StampsOfStep(plan.inputs, j, created);
      StampsCreated(plan.inputs, j, created);
      ok := Do(worker, Stamp(stamps), p, from);
    }

    /** Stamp a finished worker and rename it into place, replacing `existing` when the cache
        is not in use. */
    method Commit(plan: Plan, j: nat, worker: Name, existing: Option<CacheEntry>, ghost p: Promise, ghost from: nat)
      returns (r: StageResult)
      requires Recorded(p, from) && plan.WellFormed() && j < |plan.steps| && Allows(p, plan)
      requires worker.WorkerName? && worker in incus.world.instances
      requires Complete(incus.world.instances[worker], KeyAt(plan.inputs, j))
      requires (p.closed || p.holed) && j > 0 ==> Cached(incus.world, KeyAt(plan.inputs, j - 1))
      requires p.holed ==> Replaceable(p.origin, incus.world, KeyAt(plan.inputs, j))
      requires InTime(p, incus.world) ==> LineReady(incus.world.instances[worker].lineage, j, p.pace.value)
      requires p.bound.Some? ==> incus.world.manifest == plan.manifest
      requires existing.Some? ==> plan.noCache && existing.value.instance == CacheName(KeyAt(plan.inputs, j))
      requires Acting() == Building(JobOf(plan), j, Some(worker))
      modifies incus, this
      ensures Acting() == if r.Done? then Building(JobOf(plan), j + 1, None) else Releasing(JobOf(plan))
      ensures Recorded(p, from)
      ensures CommitPromise(old(incus.world), incus.world, KeyAt(plan.inputs, j), worker, r, existing.Some?)
      ensures r.Done? || r.CommitFailed?
      ensures r.CommitFailed? && r.taken && incus.deletes ==> existing.None?
      ensures incus.able && incus.deletes && (Cached(old(incus.world), KeyAt(plan.inputs, j)) ==> existing.Some?)
              ==> r.Done?
      ensures p.holed && r.Done? ==> Intact(p.origin, incus.world)
    {
      hide *;
      StepKey(plan, j);
      InStage(plan, j, worker);
      var key := plan.steps[j].key.key;
      ghost var w0 := incus.world;
      var ok, stamps := StampWorker(plan, j, worker, p, from);
      ghost var w1 := incus.world;
      CompleteAtRest(w1.instances[worker], key);
      StampedWorld(w0, w1, worker);
      if !ok {
        UnstampedCommit(w0, w1, key, worker, existing.Some?);
        GivingUpIsStep(w1, Acting(), worker);
        Decide(Releasing(JobOf(plan)), p, from);
        return CommitFailed(false);
      }
      if p.holed {
        StaysReplaceable(p.origin, w0, w1, key);
        ReplaceableIsIntactBut(p.origin, w1, key);
      }
      NothingDropped(w1, key);
      if existing.Some? {
        MayReplace(p, plan, j);
        DeleteExisting(key, worker, p, from);
      }
      ghost var w2 := incus.world;
      ReadyToPlace(p, plan, j, w0, w1, w2, worker, stamps);
      StampedIsWelcome(p, plan, j, w2, w0.instances[worker], stamps.created);
      var taken;
      ok, taken := Place(worker, key, p, from);
      CommitConcluded(w0, w1, w2, incus.world, key, worker, stamps, existing.Some?, ok, taken);
      r := if ok then Done(CacheEntry(stamps, CacheName(key))) else CommitFailed(taken);
    }

    /** The worker's starting point: the pinned source image for the first stage, otherwise a
        copy of the parent entry. */
    method PrepareWorker(plan: Plan, j: nat, worker: Name, parent: Option<CacheEntry>, ghost p: Promise,
                         ghost from: nat)
      returns (ok: bool)
      requires Recorded(p, from) && plan.WellFormed() && j < |plan.steps| && worker.WorkerName?
      requires ParentInPlace(plan, j, parent, incus.world)
      requires Acting() == Building(JobOf(plan), j, None)
      modifies incus, this
      ensures Acting() == if ok then Building(JobOf(plan), j, Some(worker))
                          else if parent.None? then Releasing(JobOf(plan)) else Discarding(JobOf(plan), worker)
      ensures Recorded(p, from) && OnlyTouches(old(incus.world), incus.world, worker)
      ensures ok ==> && worker in incus.world.instances
                     && Prepared(incus.world.instances[worker], KeyAt(plan.inputs, j).parent)
                     && (j > 0 ==> incus.world.instances[worker].lineage
                                   == old(incus.world).instances[CacheName(KeyAt(plan.inputs, j - 1))].lineage)
      ensures !ok && parent.None? && worker in incus.world.instances && worker !in old(incus.world).instances ==>
                incus.world.instances[worker].guest.Off? && !incus.world.instances[worker].acl
      ensures incus.able && worker !in old(incus.world).instances ==> ok
    {
      hide Holds, Follows, Step;
      ghost var w, trace, actor := incus.world, incus.trace, Acting();
      if parent.None? {
        ok := incus.Init(worker, plan.pin.fingerprint);
        NewWorkerAtRest(p, w, incus.world, worker, FreshWorker(plan.pin.fingerprint), ok);
      } else {
        EntryFacts(p, w, KeyAt(plan.inputs, j - 1));
        ok := incus.Copy(parent.value.instance, worker);
        NewWorkerAtRest(p, w, incus.world, worker, w.instances[parent.value.instance], ok);
      }
      assert incus.trace[|incus.trace| - 1] == incus.world;
      MakingIsStep(w, actor, incus.world, worker, ok);
      Log(if ok then actor.(live := Some(worker))
          else if parent.None? then Releasing(actor.job) else Discarding(actor.job, worker), w, trace, from);
    }

    /** Deleting a worker; the outcome is not checked. */
    method DiscardWorker(worker: Name, ghost p: Promise, ghost from: nat)
      requires Recorded(p, from) && worker.WorkerName?
      requires Unwanted(Acting(), worker)
      modifies incus, this
      ensures Acting() == AfterRemoval(old(Acting()), worker)
      ensures Recorded(p, from) && OnlyTouches(old(incus.world), incus.world, worker)
      ensures worker in incus.world.instances ==>
                worker in old(incus.world).instances
                && incus.world.instances[worker] == old(incus.world).instances[worker]
      ensures incus.deletes ==> worker !in incus.world.instances
    {
      hide Holds, Follows, Step;
      ghost var w, trace := incus.world, incus.trace;
      var _ := incus.Delete(worker);
      assert incus.trace[|incus.trace| - 1] == incus.world;
      if worker in incus.world.instances {
        IdleKeeps(p, w, incus.world);
      } else {
        WorkerCommandKeeps(p, w, incus.world, worker);
      }
      RemovingIsStep(w, Acting(), incus.world, worker);
      Log(AfterRemoval(Acting(), worker), w, trace, from);
    }

    /** Prepare a worker and run its stage. `created` is false when `init` itself failed, which
        the source leaves outside its cleanup. */
    method MakeWorker(plan: Plan, j: nat, worker: Name, parent: Option<CacheEntry>, ghost p: Promise, ghost from: nat)
      returns (ok: bool, created: bool)
      requires Recorded(p, from) && plan.WellFormed() && j < |plan.steps| && Allows(p, plan) && worker.WorkerName?
      requires ParentInPlace(plan, j, parent, incus.world)
      requires p.pace.Some? ==> plan.now <= incus.world.now
      requires p.pace.Some? && j > 0 ==> StampedSince(incus.world, KeyAt(plan.inputs, j - 1), plan.now - plan.Ceiling())
      requires incus.world.acl == Some(plan.inputs.allow)
      requires Acting() == Building(JobOf(plan), j, None)
      modifies incus, this
      ensures Acting() == if ok then Building(JobOf(plan), j, Some(worker))
                          else if created then Discarding(JobOf(plan), worker) else Releasing(JobOf(plan))
      ensures Recorded(p, from) && OnlyTouches(old(incus.world), incus.world, worker)
      ensures ok ==> && worker in incus.world.instances
                     && Complete(incus.world.instances[worker], KeyAt(plan.inputs, j))
                     && (InTime(p, incus.world) ==> LineReady(incus.world.instances[worker].lineage, j, p.pace.value))
      ensures !created ==> !ok
      ensures !created && worker in incus.world.instances && worker !in old(incus.world).instances ==>
                incus.world.instances[worker].guest.Off? && !incus.world.instances[worker].acl
      ensures incus.able && worker !in old(incus.world).instances ==> ok
    {
      hide Holds, Follows, Step;
      hide LineReady;
      hide KeyAt;
      ghost var w := incus.world;
      ok := PrepareWorker(plan, j, worker, parent, p, from);
      created := ok || parent.Some?;
      if !ok {
        return;
      }
      ok := RunWorker(plan, j, worker, p, from);
      if !ok {
        GivingUpIsStep(incus.world, Acting(), worker);
        Decide(Discarding(JobOf(plan), worker), p, from);
      }
      if ok && InTime(p, incus.world) {
        LineOfWorker(p, plan, j, w, incus.world.instances[worker].lineage);
      }
    }

    /** One stage: make a worker and commit it. A failed worker is discarded unless it is to be
        kept for inspection. */
    method BuildStage(plan: Plan, j: nat, parent: Option<CacheEntry>, keep: bool, ghost p: Promise, ghost from: nat)
      returns (r: StageResult)
      requires Recorded(p, from) && plan.WellFormed() && j < |plan.steps| && Allows(p, plan)
      requires ParentInPlace(plan, j, parent, incus.world)
      requires p.pace.Some? ==> plan.now <= incus.world.now
      requires p.pace.Some? && j > 0 ==> StampedSince(incus.world, KeyAt(plan.inputs, j - 1), plan.now - plan.Ceiling())
      requires incus.world.acl == Some(plan.inputs.allow) && ListingNamed(plan.entries)
      requires p.bound.Some? ==> incus.world.manifest == plan.manifest
      requires p.holed ==> Replaceable(p.origin, incus.world, KeyAt(plan.inputs, j))
      requires Acting() == Building(JobOf(plan), j, None)
      modifies incus, this
      ensures Acting() == if r.Done? then Building(JobOf(plan), j + 1, None) else Releasing(JobOf(plan))
      ensures Recorded(p, from) && StagePromise(old(incus.world), incus.world, plan, j, r)
      ensures p.holed && r.Done? ==> Intact(p.origin, incus.world)
      ensures r.StageFailed? ==> (r.kept.Some? <==> keep)
      ensures incus.deletes && NoWorkers(old(incus.world)) ==> WorkersLeft(incus.world, r)
      ensures incus.able && incus.deletes && NoWorkers(old(incus.world)) && CanCommit(old(incus.world), plan, j)
              && (Cached(old(incus.world), KeyAt(plan.inputs, j)) ==> HasEntry(plan.entries, KeyAt(plan.inputs, j)))
              ==> r.Done?
    {
      hide *;
      var suffix :| suffix >= 0;
      StepKey(plan, j);
      var worker := WorkerName(plan.steps[j].key.key, suffix);
      ghost var w := incus.world;
      ghost var free := NoWorkers(w) && CanCommit(w, plan, j)
                        && (Cached(w, KeyAt(plan.inputs, j)) ==> HasEntry(plan.entries, KeyAt(plan.inputs, j)));
      if NoWorkers(w) {
        WorkerNameFree(w, worker);
      }
      var ok, created := MakeWorker(plan, j, worker, parent, p, from);
      ghost var w1 := incus.world;
      if !ok {
        if !created {
          r := InitFailed;
        } else if keep {
          KeepingIsStep(incus.world, JobOf(plan), worker);
          Decide(Releasing(JobOf(plan)), p, from);
          r := StageFailed(Some(worker));
        } else {
          ToDiscard(JobOf(plan), worker);
          DiscardWorker(worker, p, from);
          r := StageFailed(None);
        }
        NothingCommitted(w, w1, incus.world, plan, j, worker, r);
        if incus.deletes && NoWorkers(w) {
          FailedWorkerLeft(w, w1, incus.world, worker, r);
        }
        return;
      }
      var existing := if plan.noCache then Lookup(plan.entries, plan.steps[j].key.key) else None;
      ParentSurvives(w, w1, plan, j, parent, worker);
      if p.holed {
        TouchedWorker(w, w1, worker);
        StaysReplaceable(p.origin, w, w1, plan.steps[j].key.key);
      }
      ExistingNamed(plan.entries, plan.steps[j].key.key);
      if free {
        FoundToReplace(w, w1, plan, j, worker);
      }
      r := Commit(plan, j, worker, existing, p, from);
      StageCommitted(w, w1, incus.world, plan, j, worker, r, existing.Some?);
    }

    /** Workers left behind by a crash or kept on request; failed deletions are ignored. */
    method RemoveLeftoverWorkers(ghost p: Promise, ghost from: nat) returns (ok: bool)
      requires Recorded(p, from)
      requires Acting().Listing?
      modifies incus, this
      ensures ok ==> Acting() == Cleaning(old(Acting()).job, {})
      ensures !ok ==> Acting() == old(Acting())
      ensures Recorded(p, from) && SameHost(old(incus.world), incus.world) && SameEntries(old(incus.world), incus.world)
      ensures forall n :: n in incus.world.instances ==> n in old(incus.world).instances
      ensures ok && incus.deletes ==> NoWorkers(incus.world)
      ensures incus.able ==> ok
    {
      hide Holds, Follows, Step;
      ok := incus.Query();
      if !ok {
        return;
      }
      var todo := set n | n in incus.world.instances.Keys && n.WorkerName?;
      ListedWorkersIsStep(incus.world, Acting().job);
      Decide(Cleaning(Acting().job, todo), p, from);
      while todo != {}
        invariant Recorded(p, from) && SameHost(old(incus.world), incus.world)
            && SameEntries(old(incus.world), incus.world)
        invariant forall n :: n in incus.world.instances ==> n in old(incus.world).instances
        invariant forall n :: n in todo ==> n.WorkerName?
        invariant Acting() == Cleaning(old(Acting()).job, todo)
        invariant incus.deletes ==> forall n :: n in incus.world.instances && n.WorkerName? ==> n in todo
        decreases todo
      {
        var n :| n in todo;
        todo := todo - {n};
        ghost var w := incus.world;
        DiscardWorker(n, p, from);
        TouchedWorker(w, incus.world, n);
      }
    }

    /** Creates the ACL if need be and writes its rules; the hosts it needs may not resolve. `step`
        says where it failed. */
    method ApplyAcl(allow: seq<string>, ghost p: Promise, ghost from: nat) returns (ok: bool, step: AclStep)
      requires Recorded(p, from)
      requires Acting().Cleaning? && Acting().leftovers == {} && Acting().job.inputs.allow == allow
      modifies incus, this
      ensures Acting() == if ok then Building(old(Acting()).job, old(Acting()).job.first, None) else old(Acting())
      ensures Recorded(p, from)
      ensures OnlyAcl(old(incus.world), incus.world)
      ensures ok ==> incus.world.acl == Some(allow)
      ensures !ok ==> AclLeft(old(incus.world).acl, incus.world.acl, allow, step)
      ensures !ok && incus.honest && !step.RulesStep? ==> incus.world.acl == old(incus.world).acl
      ensures incus.able ==> ok
    {
      hide Holds, Follows, Step;
      ghost var w, trace, actor := incus.world, incus.trace, Acting();
      ok := incus.Query();
      step := PolicyStep;
      if !ok { return; }
      ok := incus.CreateAcl();
      assert incus.trace[|incus.trace| - 1] == incus.world;
      AclCommandKeeps(p, w, incus.world);
      PolicyIsStep(w, actor, incus.world);
      Log(actor, w, trace, from);
      step := CreateStep;
      if !ok { return; }
      w, trace := incus.world, incus.trace;
      ok := incus.PutAcl(allow);
      assert incus.trace[|incus.trace| - 1] == incus.world;
      AclCommandKeeps(p, w, incus.world);
      PolicyIsStep(w, actor, incus.world);
      Log(if ok then Building(actor.job, actor.job.first, None) else actor, w, trace, from);
      step := RulesStep;
    }

    /** `detach_acl` on one entry; one that is gone is no error. */
    method DetachEntry(instance: Name, ghost key: Key, ghost p: Promise, ghost from: nat) returns (ok: bool)
      requires Recorded(p, from) && instance == CacheName(key)
      requires Acting().Releasing? && key in Acting().job.listed
      modifies incus, this
      ensures Acting() == old(Acting())
      ensures Recorded(p, from) && SameHost(old(incus.world), incus.world)
      ensures SameStamps(old(incus.world), incus.world)
      ensures OnlyEntriesTouched(old(incus.world), incus.world)
      ensures TakenOffAcl(old(incus.world), incus.world, key, ok)
      ensures incus.able ==> ok
    {
      hide Holds, Follows, Step;
      ghost var w, trace := incus.world, incus.trace;
      ok := incus.DetachAcl(instance);
      assert incus.trace[|incus.trace| - 1] == incus.world;
      if instance in w.instances {
        DetachEntryKeeps(p, w, incus.world, key, ok);
        OthersKept(w, incus.world, instance);
      } else {
        IdleKeeps(p, w, incus.world);
      }
      DetachingIsStep(w, Acting(), incus.world, key, ok);
      Log(Acting(), w, trace, from);
    }

    /** Detach the ACL from every listed entry, then delete it. */
    method ReleaseAcl(entries: seq<CacheEntry>, ghost p: Promise, ghost from: nat) returns (ok: bool, refused: bool)
      requires Recorded(p, from)
      requires ListingNamed(entries)
      requires OnAclListed(incus.world, entries)
      requires Acting().Releasing? && forall e :: e in entries ==> e.stamps.key in Acting().job.listed
      modifies incus, this
      ensures Recorded(p, from)
      ensures SameStamps(old(incus.world), incus.world)
      ensures incus.world.images == old(incus.world).images && incus.world.manifest == old(incus.world).manifest
      ensures incus.world.now >= old(incus.world).now
      ensures ok ==> incus.world.acl.None? && !refused
      ensures refused ==> exists n :: n in incus.world.instances && incus.world.instances[n].acl && !n.CacheName?
      ensures OnlyEntriesTouched(old(incus.world), incus.world)
      ensures incus.able && !refused ==> ok
      ensures ok && old(incus.world).acl.Some? ==> AclOurs(old(incus.world))
    {
      hide Holds, OnAclListed, ListingNamed, SameStamps, OnlyEntriesTouched, OnAclFrom, TakenOffAcl, Cached;
      refused := false;
      ghost var w0 := incus.world;
      ReleaseStarts(w0, entries);
      for i := 0 to |entries|
        invariant Recorded(p, from) && SameHost(w0, incus.world) && Acting() == old(Acting())
        invariant SameStamps(w0, incus.world) && OnlyEntriesTouched(w0, incus.world)
        invariant OnAclFrom(incus.world, entries, i)
      {
        ghost var w := incus.world;
        ok := DetachEntry(entries[i].instance, entries[i].stamps.key, p, from);
        ReleaseSoFar(w0, w, incus.world);
        if !ok { return; }
        ReleaseStep(w, incus.world, entries, i);
      }
      ghost var w, trace := incus.world, incus.trace;
      ok, refused := incus.DeleteAcl();
      assert incus.trace[|incus.trace| - 1] == incus.world;
      AclCommandKeeps(p, w, incus.world);
      DeletingAclIsStep(w, Acting(), incus.world);
      Log(Idle, w, trace, from);
      ReleaseEnds(w0, w, incus.world, entries, refused);
    }

    /** One turn of the loop over the stages. */
    method NextStage(plan: Plan, j: nat, template: Option<CacheEntry>, keep: bool, ghost w0: World, ghost p: Promise,
          ghost from: nat)
      returns (r: StageResult)
      requires Recorded(p, from) && plan.WellFormed() && Allows(p, plan) && j < |plan.steps|
      requires Progress(p, plan, w0, incus.world, j, template)
      requires Acting() == Building(JobOf(plan), j, None)
      modifies incus, this
      ensures Acting() == if r.Done? then Building(JobOf(plan), j + 1, None) else Releasing(JobOf(plan))
      ensures Recorded(p, from) && SameHost(w0, incus.world)
      ensures r.Done? ==> Progress(p, plan, w0, incus.world, j + 1, Some(r.entry))
      ensures !r.Done? ==> j >= plan.FirstBuild() && BuildOutcome(w0, incus.world, plan, Some(r), j - plan.FirstBuild())
                           && OnAclListed(incus.world, plan.entries)
      ensures r.CommitFailed? && p.closed ==> !r.taken
      ensures r.StageFailed? ==> (r.kept.Some? <==> keep)
      ensures incus.deletes && NoWorkers(old(incus.world)) ==> WorkersLeft(incus.world, r)
      ensures !r.Done? ==> StrandedAt(incus.world, plan, r, j)
      ensures incus.able && incus.deletes && NoWorkers(old(incus.world)) && CanCommit(w0, plan, j) ==> r.Done?
    {
      hide *;
      ghost var w := incus.world;
      ProgressGives(p, plan, w0, w, j, template);
      CanStillCommit(w0, w, plan, j);
      r := BuildStage(plan, j, template, keep, p, from);
      ProgressAdvances(p, plan, w0, w, incus.world, j, template, r);
      StrandedIs(incus.world, plan, r, j);
    }

    /** The stages still to build, each on the one before it. */
    method BuildStages(plan: Plan, keep: bool, ghost p: Promise, ghost from: nat)
      returns (failure: Option<StageResult>, rebuilt: nat, template: Option<CacheEntry>)
      requires Recorded(p, from) && plan.WellFormed() && Allows(p, plan)
      requires Progress(p, plan, incus.world, incus.world, plan.FirstBuild(), plan.ReusedEntry())
      requires plan.FirstBuild() < |plan.steps| ==> Acting() == Building(JobOf(plan), plan.FirstBuild(), None)
      modifies incus, this
      ensures plan.FirstBuild() < |plan.steps| ==>
                Acting() == if failure.None? then Building(JobOf(plan), |plan.steps|, None) else Releasing(JobOf(plan))
      ensures plan.FirstBuild() == |plan.steps| ==> Acting() == old(Acting())
      ensures Recorded(p, from) && SameHost(old(incus.world), incus.world)
      ensures OnAclListed(incus.world, plan.entries)
      ensures BuildOutcome(old(incus.world), incus.world, plan, failure, rebuilt)
      ensures failure.Some? && failure.value.CommitFailed? && p.closed ==> !failure.value.taken
      ensures failure.Some? && failure.value.StageFailed? ==> (failure.value.kept.Some? <==> keep)
      ensures failure.None? ==> template.Some? && ParentInPlace(plan, |plan.steps|, template, incus.world)
      ensures failure.None? ==> TemplateRecent(p, plan, incus.world)
      ensures incus.deletes && NoWorkers(old(incus.world)) ==>
                if failure.None? then NoWorkers(incus.world) else WorkersLeft(incus.world, failure.value)
      ensures failure.Some? ==> plan.FirstBuild() + rebuilt < |plan.steps|
                                && StrandedAt(incus.world, plan, failure.value, plan.FirstBuild() + rebuilt)
      ensures incus.able && incus.deletes && NoWorkers(old(incus.world)) && StagesCanCommit(old(incus.world), plan)
              ==> failure.None?
    {
      hide *;
      FirstBuildIsHitPrefix(plan);
      ghost var w0 := incus.world;
      var deepest := DeepestHit(plan.steps);
      template := plan.ReusedEntry();
      failure := None;
      rebuilt := 0;
      for j := deepest + 1 to |plan.steps|
        invariant Recorded(p, from) && rebuilt == j - plan.FirstBuild()
        invariant Progress(p, plan, w0, incus.world, j, template)
        invariant Acting() == if plan.FirstBuild() < |plan.steps| then Building(JobOf(plan), j, None) else old(Acting())
        invariant incus.deletes && NoWorkers(w0) ==> NoWorkers(incus.world)
      {
        if StagesCanCommit(w0, plan) {
          StagesCanCommitGives(w0, plan, j);
        }
        var result := NextStage(plan, j, template, keep, w0, p, from);
        if !result.Done? {
          failure := Some(result);
          return;
        }
        if incus.deletes && NoWorkers(w0) {
          DoneLeavesNoWorkers(incus.world, result);
        }
        template := Some(result.entry);
        rebuilt := rebuilt + 1;
      }
      AllBuilt(p, w0, incus.world, plan, template, rebuilt);
    }

    /** Publishes the finished template under the plan's alias. */
    method PublishTemplate(plan: Plan, template: CacheEntry, ghost p: Promise, ghost from: nat) returns (ok: bool)
      requires Recorded(p, from) && plan.WellFormed()
      requires ParentInPlace(plan, |plan.steps|, Some(template), incus.world)
      requires Acting().Releasing? || Acting().Cleaning?
      modifies incus, this
      ensures Acting() == old(Acting())
      ensures Recorded(p, from)
      ensures incus.world == old(incus.world).(images := incus.world.images, now := incus.world.now)
      ensures incus.world.now >= old(incus.world).now
      ensures ok ==> incus.world.images == WithTemplate(old(incus.world).images, plan)
      ensures !ok ==> || incus.world.images == old(incus.world).images
                      || incus.world.images == WithTemplate(old(incus.world).images, plan)
      ensures incus.able ==> ok
    {
      hide Holds, Follows, Step;
      ghost var w, trace := incus.world, incus.trace;
      EntryFacts(p, w, plan.BuildKey());
      ok := incus.Publish(template.instance, plan.alias, plan.BuildKey());
      assert incus.trace[|incus.trace| - 1] == incus.world;
      if incus.world.images == w.images {
        IdleKeeps(p, w, incus.world);
      } else {
        PublishKeeps(p, w, incus.world, plan.alias, plan.BuildKey());
      }
      QuietIsStep(w, Acting(), incus.world);
      Log(Acting(), w, trace, from);
    }

    /** The guarded part of a run: the ACL if anything is to be built, the stages, the publish. */
    method Attempt(plan: Plan, publish: bool, keep: bool, ghost p: Promise, ghost from: nat)
      returns (failure: Option<Failure>, policy: bool, rebuilt: nat, kept: Option<Name>)
      requires Recorded(p, from) && plan.WellFormed() && PlanOf(incus.world, plan) && !plan.IsNoop() && Allows(p, plan)
      requires p.pace.Some? ==> plan.now <= incus.world.now && !TooOld(plan)
      requires p.bound.Some? ==> incus.world.manifest == plan.manifest
      requires p.holed ==> Untouched(p.origin, incus.world)
      requires Acting() == Cleaning(JobOf(plan), {})
      modifies incus, this
      ensures policy ==> Acting() == Releasing(JobOf(plan))
      ensures Recorded(p, from)
      ensures Attempted(old(incus.world), incus.world, plan, publish, failure, policy, rebuilt)
      ensures failure.None? || failure.value.PublishError? ==> TemplateRecent(p, plan, incus.world)
      ensures p.closed ==> !NameTaken(failure)
      ensures kept.Some? <==> keep && failure.Some? && failure.value.StageError? && failure.value.result.StageFailed?
      ensures failure.Some? && failure.value.StageError? && failure.value.result.StageFailed? ==>
                failure.value.result.kept == kept
      ensures incus.deletes && NoWorkers(old(incus.world)) ==> WorkersAfter(incus.world, failure)
      ensures StrandedAfter(incus.world, plan, failure, rebuilt)
      ensures failure.Some? && failure.value.AclFailed? ==> !policy
      ensures incus.honest && failure.Some? && failure.value.AclFailed? && !failure.value.step.RulesStep? ==>
                incus.world.acl == old(incus.world).acl
      ensures incus.able && incus.deletes && NoWorkers(old(incus.world)) && StagesCanCommit(old(incus.world), plan)
              ==> failure.None?
    {
      hide *;
      policy, rebuilt, kept := false, 0, None;
      ghost var w := incus.world;
      FirstBuildIsHitPrefix(plan);
      if HitPrefix(plan.steps) < |plan.steps| {
        var step;
        JobAllows(plan);
        policy, step := ApplyAcl(plan.inputs.allow, p, from);
        OnlyAclIs(w, incus.world);
        AclStaysValid(w, incus.world, plan);
        if !policy {
          failure := Some(AclFailed(step));
          AttemptedNothing(w, incus.world, plan, publish, step);
          NothingStranded(incus.world, plan, failure, rebuilt);
          OtherFailure(failure);
          if NoWorkers(w) {
            NoWorkersAfter(w, incus.world, failure);
          }
          return;
        }
      }
      ghost var w1 := incus.world;
      if NoWorkers(w) {
        NoWorkersStill(w, w1);
      }
      SameKeysCanCommit(w, w1, plan);
      if p.holed {
        StaysUntouched(p.origin, w, w1, w1);
      }
      Present(p, from);
      StartingPoint(p, w1, plan);
      var error, template;
      error, rebuilt, template := BuildStages(plan, keep, p, from);
      if error.Some? {
        failure := Some(StageError(error.value));
        kept := if error.value.StageFailed? then error.value.kept else None;
        AttemptedStages(w, w1, incus.world, plan, publish, error.value, policy, rebuilt);
        StageStranded(incus.world, plan, error.value, rebuilt);
        if p.closed {
          NotTaken(error.value);
        }
        if incus.deletes && NoWorkers(w) {
          StageWorkersAfter(incus.world, error.value);
        }
        return;
      }
      failure := None;
      if policy {
        StagesDone(incus.world, plan);
        Decide(Releasing(JobOf(plan)), p, from);
      }
      ghost var w2 := incus.world;
      if publish {
        var ok := PublishTemplate(plan, template.value, p, from);
        if !ok {
          failure := Some(PublishError);
        }
      }
      SameInstancesSameStamps(w2, incus.world);
      StillRecent(p, plan, w2, incus.world);
      AttemptedAll(w, w1, w2, incus.world, plan, publish, failure, policy, rebuilt);
      OtherFailure(failure);
      NothingStranded(incus.world, plan, failure, rebuilt);
      if incus.deletes && NoWorkers(w) {
        NoWorkersAfter(w2, incus.world, failure);
      }
    }

    /** The present world keeps the promise. */
    lemma Present(p: Promise, from: nat)
      requires Recorded(p, from)
      ensures Holds(p, incus.world)
    {
    }

    /** The run after the leftovers are gone: the attempt, and the release of its ACL unless a worker is
        kept that names it. `w0` is the world before the run, `w1` the one with the manifest saved. */
    method AttemptAndRelease(plan: Plan, publish: bool, keep: bool, ghost w0: World, ghost w1: World, ghost p: Promise,
                             ghost from: nat)
      returns (report: RunReport)
      requires Recorded(p, from) && plan.WellFormed() && PlanOf(incus.world, plan) && !plan.IsNoop() && Allows(p, plan)
      requires w1 == w0.(manifest := plan.manifest, now := w1.now) && Holds(p, w0)
      requires SameHost(w1, incus.world) && SameEntries(w1, incus.world)
      requires p.pace.Some? ==> plan.now <= incus.world.now && !TooOld(plan)
      requires p.bound.Some? ==> incus.world.manifest == plan.manifest
      requires p.holed ==> Untouched(p.origin, incus.world)
      requires incus.deletes ==> NoWorkers(incus.world)
      requires Acting() == Cleaning(JobOf(plan), {})
      modifies incus, this
      ensures Recorded(p, from)
      ensures CacheOutcome(w0, incus.world, plan, publish, report) && AclOutcome(w0, incus.world, plan, keep, report)
      ensures report.Raised? ==> !report.failure.StaleEntry?
      ensures AllStages(report) ==> TemplateRecent(p, plan, incus.world)
      ensures p.closed && report.Raised? ==> !NameTaken(Some(report.failure))
      ensures incus.deletes ==> WorkersOutcome(incus.world, report)
      ensures report.Raised? ==> StrandedAfter(incus.world, plan, Some(report.failure), report.rebuilt)
      ensures incus.honest && report.Raised? && report.failure.AclFailed? && !report.failure.step.RulesStep? ==>
                incus.world.acl == w0.acl
      ensures incus.able && incus.deletes ==>
                (report.Finished? <==>
                   StagesCanCommit(w0, plan) && (plan.FirstBuild() < |plan.steps| ==> AclOurs(w0)))
    {
      hide *;
      ghost var w2 := incus.world;
      SameAcl(w1, w2);
      SameEntriesCanCommit(w0, w1, w2, plan);
      var failure, policy, rebuilt, kept := Attempt(plan, publish, keep, p, from);
      ghost var w3 := incus.world;
      Present(p, from);
      AclStaysOurs(p, w0, w3);
      PolicyHasStages(w2, w3, plan, publish, failure, policy, rebuilt);
      if failure.None? {
        BuiltCouldCommit(w0, w2, w3, plan, publish, policy, rebuilt);
        if incus.deletes {
          NoFailureNoWorkers(w3);
        }
      }
      var released, refused := true, false;
      if kept.None? && policy {
        ReadyToRelease(w2, w3, plan, publish, failure, policy, rebuilt);
        JobLists(plan);
        released, refused := ReleaseAcl(plan.entries, p, from);
        if refused && NoWorkers(w3) {
          OthersOnAcl(w3, incus.world);
        }
      } else {
        SameInstancesSameStamps(w3, incus.world);
        NothingTouched(w3, incus.world);
      }
      if failure.None? || failure.value.PublishError? {
        StillRecent(p, plan, w3, incus.world);
      }
      if failure.None? && released {
        report := Finished(policy, publish, rebuilt);
      } else if failure.None? {
        OtherFailure(Some(CleanupError));
        NothingStranded(incus.world, plan, Some(CleanupError), rebuilt);
        report := Raised(CleanupError, policy, None, true, refused, rebuilt);
      } else {
        SameStampsKeys(w3, incus.world);
        StillStranded(w3, incus.world, plan, failure, rebuilt);
        report := Raised(failure.value, policy, kept, !released, refused, rebuilt);
      }
      AllStagesIs(report);
      RunConcluded(w0, w1, w2, w3, incus.world, plan, publish, keep, failure, policy, rebuilt, kept, released,
          refused, report);
      if incus.deletes {
        WorkersConcluded(w3, incus.world, failure, report, kept);
      }
    }

    /** One run of a plan made for the present world, under the lock. */
    method Run(plan: Plan, publish: bool, allowStale: bool, keep: bool, ghost p: Promise, ghost from: nat)
      returns (report: RunReport)
      requires Recorded(p, from) && plan.WellFormed() && PlanOf(incus.world, plan) && Allows(p, plan)
      requires p.pace.Some? ==> plan.now <= incus.world.now && (allowStale ==> plan.ReusedEntry().None?)
      requires p.bound.Some? ==> Rising(incus.world.manifest, plan.manifest, p.bound.value)
      requires p.holed ==> Untouched(p.origin, incus.world)
      requires Acting() == Planning
      modifies incus, this
      ensures Recorded(p, from)
      ensures CacheOutcome(old(incus.world), incus.world, plan, publish, report)
      ensures AclOutcome(old(incus.world), incus.world, plan, keep, report)
      ensures RefusedAsStale(report) <==> plan.Stale() && !allowStale
      ensures AllStages(report) && !plan.IsNoop() ==> TemplateRecent(p, plan, incus.world)
      ensures p.closed && report.Raised? ==> !NameTaken(Some(report.failure))
      ensures incus.deletes && Attempting(plan, report) ==> WorkersOutcome(incus.world, report)
      ensures report.Raised? ==> StrandedAfter(incus.world, plan, Some(report.failure), report.rebuilt)
      ensures incus.honest && report.Raised? && report.failure.AclFailed? && !report.failure.step.RulesStep? ==>
                incus.world.acl == old(incus.world).acl
      ensures incus.able && incus.deletes && !plan.IsNoop() ==>
                (report.Finished? <==> CanFinish(old(incus.world), plan, allowStale))
    {
      hide *;
      ghost var w0 := incus.world;
      StaleIsTooOld(plan);
      if plan.Stale() && !allowStale {
        StaleCannotFinish(w0, plan);
        RefusedStale(w0, plan, publish, keep);
        OtherFailure(Some(StaleEntry));
        report := Raised(StaleEntry, false, None, false, false, 0);
        RefusedIs(report);
        NothingStranded(w0, plan, Some(StaleEntry), 0);
        NotAttempting(plan, report);
        return;
      }
      CanFinishIs(w0, plan, allowStale);
      Present(p, from);
      var ok := SaveManifest(plan.manifest, p, from);
      ghost var w1 := incus.world;
      if !ok {
        SaveRefused(w0, w1, plan, publish, keep);
        OtherFailure(Some(SaveFailed));
        report := Raised(SaveFailed, false, None, false, false, 0);
        NothingStranded(w1, plan, Some(SaveFailed), 0);
        NotAttempting(plan, report);
        NotRefusedAsStale(report);
        return;
      }
      if plan.IsNoop() {
        NoopOutcome(w0, w1, plan, publish, keep);
        report := Finished(false, false, 0);
        NotAttempting(plan, report);
        NotRefusedAsStale(report);
        return;
      }
      JobPlanned(w0, w1, plan);
      Decide(Listing(JobOf(plan)), p, from);
      ok := RemoveLeftoverWorkers(p, from);
      ghost var w2 := incus.world;
      if !ok {
        ListingFailed(w0, w1, w2, plan, publish, keep);
        OtherFailure(Some(ListFailed));
        report := Raised(ListFailed, false, None, false, false, 0);
        NothingStranded(w2, plan, Some(ListFailed), 0);
        NotAttempting(plan, report);
        NotRefusedAsStale(report);
        return;
      }
      LeftoversStayValid(w0, w1, w2, plan);
      if p.holed {
        StaysUntouched(p.origin, w0, w1, w2);
      }
      report := AttemptAndRelease(plan, publish, keep, w0, w1, p, from);
      NotRefusedAsStale(report);
    }

    method SaveManifest(manifest: Manifest, ghost p: Promise, ghost from: nat) returns (ok: bool)
      requires Recorded(p, from) && (p.bound.Some? ==> Rising(incus.world.manifest, manifest, p.bound.value))
      requires Acting() == Planning
      modifies incus, this
      ensures Acting() == old(Acting())
      ensures Recorded(p, from)
      ensures incus.world
              == old(incus.world).(manifest := if ok then manifest else old(incus.world).manifest,
                                   now := incus.world.now)
      ensures incus.able ==> ok
      ensures incus.world.now >= old(incus.world).now
    {
      hide Holds, Follows, Step;
      ghost var w, trace := incus.world, incus.trace;
      ok := incus.SaveManifest(manifest);
      assert incus.trace[|incus.trace| - 1] == incus.world;
      SaveManifestKeeps(p, w, incus.world);
      QuietIsStep(w, Acting(), incus.world);
      Log(Acting(), w, trace, from);
    }
  }
}
