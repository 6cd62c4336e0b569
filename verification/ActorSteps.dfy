/** The commands of one build or prune as steps of an actor that acts on what it saw when it planned:
    what `BuildLock` interleaves, and what the methods of `ImageBuilder` follow. */
module ActorSteps {
  import opened Prelude
  import opened StageKeys
  import opened History
  import opened Host
  import opened BuildPlan

  /** A build as planned: its inputs, the number of leading hits, whether it uses the cache, and the
      entries it has listed. */
  datatype Job = Job(inputs: BuildInputs, first: nat, noCache: bool, listed: set<Key>)

  /** Where an actor stands, with everything it remembers. `live` is the worker it is building in. */
  datatype Actor =
    | Idle
    | Planning
    | Listing(job: Job)
    | Cleaning(job: Job, leftovers: set<Name>)
    | Building(job: Job, next: nat, live: Option<Name>)
    | Discarding(job: Job, worker: Name)
    | Releasing(job: Job)
    | Pruning(todo: set<Key>)

  predicate HitsOf(job: Job, w: World) {
    && job.first <= |job.inputs.stages|
    && forall i :: 0 <= i < job.first ==> Cached(w, KeyAt(job.inputs, i))
  }

  function WorkersOf(w: World): set<Name> {
    set n | n in w.instances.Keys && n.WorkerName?
  }

  function EntriesOf(w: World): set<Key> {
    set n | n in w.instances.Keys && n.CacheName? :: n.key
  }

  /** No instance and no ACL is touched. */
  predicate Quiet(w: World, w': World) {
    w'.instances == w.instances && w'.acl == w.acl
  }

  /** Planning reads the cache: a build, a prune, or nothing to do. */
  ghost predicate PlanStep(w: World, w': World, actor': Actor) {
    && Quiet(w, w')
    && (|| actor'.Idle? || actor'.Planning?
        || (actor'.Listing? && HitsOf(actor'.job, w) && (actor'.job.noCache ==> actor'.job.first == 0)
            && actor'.job.listed == EntriesOf(w))
        || (actor'.Pruning? && actor'.todo <= EntriesOf(w)))
  }

  ghost predicate Removed(w: World, w': World, n: Name) {
    OnlyTouches(w, w', n) && (w'.instances == w.instances || w'.instances == w.instances - {n})
  }

  /** Leftover workers go one by one; then the ACL is applied, in as many commands as it takes, unless
      nothing is to be built. */
  ghost predicate CleanStep(w: World, job: Job, todo: set<Name>, w': World, actor': Actor) {
    || (exists n :: n in todo && Removed(w, w', n) && actor' == Cleaning(job, todo - {n}))
    || (todo == {} && OnlyAcl(w, w')
         && (actor' == Cleaning(job, todo)
              || (w'.acl == Some(job.inputs.allow) && actor' == Building(job, job.first, None))))
    || (Quiet(w, w') && (actor' == Cleaning(job, todo) || actor' == Idle))
  }

  ghost predicate MadeOrNot(w: World, w': World, worker: Name, made: Instance, actor': Actor, onward: Actor,
        failed: Actor) {
    || (Created(w, w', worker, made, true) && actor' == onward)
    || (Created(w, w', worker, made, false) && actor' == failed)
  }

  /** Making a worker from the source or from a copy of the parent, which must still exist. */
  ghost predicate CopyStep(w: World, job: Job, next: nat, worker: Name, w': World, actor': Actor)
    requires next < |job.inputs.stages|
  {
    && worker.WorkerName?
    && (if next == 0 then
          MadeOrNot(w, w', worker, FreshWorker(job.inputs.fingerprint), actor',
                    Building(job, next, Some(worker)), Releasing(job))
        else if Cached(w, KeyAt(job.inputs, next - 1)) then
          MadeOrNot(w, w', worker, w.instances[CacheName(KeyAt(job.inputs, next - 1))], actor',
                    Building(job, next, Some(worker)), Discarding(job, worker))
        else Quiet(w, w') && actor' == Discarding(job, worker))
  }

  ghost predicate WorkStep(w: World, job: Job, next: nat, worker: Name, w': World, actor': Actor)
    requires next < |job.inputs.stages|
  {
    var key := KeyAt(job.inputs, next);
    || (exists e, ok :: Applied(w, w', worker, e, ok)
          && (actor' == Building(job, next, Some(worker)) || (!ok && actor' == Discarding(job, worker))))
    || (job.noCache && Removed(w, w', CacheName(key)) && actor' == Building(job, next, Some(worker)))
    || (exists ok :: Renamed(w, w', worker, CacheName(key), ok)
                     && actor' == if ok then Building(job, next + 1, None) else Releasing(job))
    || (Quiet(w, w') && actor' == Releasing(job))
  }

  ghost predicate LettingGoStep(w: World, job: Job, w': World, actor': Actor) {
    || (exists key, ok :: key in job.listed && Applied(w, w', CacheName(key), Detach, ok) && actor' == Releasing(job))
    || (OnlyAcl(w, w') && (w'.acl == w.acl || (w'.acl.None? && !AclInUse(w))) && actor' == Idle)
    || (Quiet(w, w') && (actor' == Releasing(job) || actor' == Idle))
  }

  /** One command of an actor, driven by what it remembers. */
  ghost predicate Step(w: World, actor: Actor, w': World, actor': Actor) {
    match actor
    case Idle => false
    case Planning => PlanStep(w, w', actor')
    case Listing(job) => Quiet(w, w') && (actor' == actor || actor' == Cleaning(job, WorkersOf(w)))
    case Cleaning(job, todo) => CleanStep(w, job, todo, w', actor')
    case Building(job, next, live) =>
      if next >= |job.inputs.stages| then Quiet(w, w') && actor' == Releasing(job)
      else if live.None? then exists worker :: CopyStep(w, job, next, worker, w', actor')
      else WorkStep(w, job, next, live.value, w', actor')
    case Discarding(job, worker) => (Removed(w, w', worker) || Quiet(w, w')) && actor' == Releasing(job)
    case Releasing(job) => LettingGoStep(w, job, w', actor')
    case Pruning(todo) =>
      || (exists key :: key in todo && Removed(w, w', CacheName(key)) && actor' == Pruning(todo))
      || (Quiet(w, w') && actor' == Idle)
  }

  // ---- the run of one actor -----------------------------------------------------------------------

  /** A moment of a run; `command` tells whether a command led to it, or only a decision. */
  datatype Moment = Moment(world: World, actor: Actor, command: bool)

  /** The worlds that the commands of a run left. */
  function Left(run: seq<Moment>): seq<World> {
    if run == [] then []
    else
      var last := run[|run| - 1];
      Left(run[..|run| - 1]) + if last.command then [last.world] else []
  }

  /** The steps of one actor alone. */
  ghost predicate Solo(run: seq<Moment>) {
    forall i :: 0 <= i < |run| - 1 ==> Step(run[i].world, run[i].actor, run[i + 1].world, run[i + 1].actor)
  }

  /** From position `from` on, the trace is what the commands of this run left, from planning on. */
  ghost predicate Follows(run: seq<Moment>, trace: seq<World>, from: nat) {
    && from < |trace| && |run| > 0 && run[0] == Moment(trace[from], Planning, true)
    && run[|run| - 1].world == trace[|trace| - 1]
    && Solo(run) && Left(run) == trace[from..]
  }

  ghost predicate Extends(run: seq<Moment>, moment: Moment) {
    |run| > 0 && Step(run[|run| - 1].world, run[|run| - 1].actor, moment.world, moment.actor)
  }

  lemma FollowsOn(run: seq<Moment>, trace: seq<World>, from: nat, moment: Moment)
    requires Follows(run, trace, from) && Extends(run, moment)
    ensures moment.command ==> Follows(run + [moment], trace + [moment.world], from)
    ensures !moment.command && moment.world == run[|run| - 1].world ==> Follows(run + [moment], trace, from)
  {
    hide Step;
    assert (run + [moment])[..|run|] == run;
    assert (trace + [moment.world])[from..] == trace[from..] + [moment.world];
  }

  lemma FollowsFrom(trace: seq<World>)
    requires |trace| > 0
    ensures Follows([Moment(trace[|trace| - 1], Planning, true)], trace, |trace| - 1)
  {
    var run := [Moment(trace[|trace| - 1], Planning, true)];
    assert run[..0] == [];
    assert trace[|trace| - 1..] == [trace[|trace| - 1]];
  }

  lemma {:induction false} LeftBy(run: seq<Moment>, t: nat) returns (i: nat)
    requires t < |Left(run)|
    ensures i < |run| && run[i].command && run[i].world == Left(run)[t]
  {
    var n := |run| - 1;
    if run[n].command && t == |Left(run[..n])| {
      i := n;
    } else {
      i := LeftBy(run[..n], t);
    }
  }

  // ---- what a run may lack ----------------------------------------------------------------------------

  predicate InChain(job: Job, key: Key) {
    exists i :: 0 <= i < |job.inputs.stages| && key == KeyAt(job.inputs, i)
  }

  /** An entry that was there when the actor began to plan may be missing where it stands: the one it is
      about to replace, or was when its stage failed; for a prune, one it has planned to delete. */
  predicate MayLack(actor: Actor, key: Key) {
    match actor
    case Building(job, next, live) =>
      live.Some? && job.noCache && next < |job.inputs.stages| && key == KeyAt(job.inputs, next)
    case Discarding(job, _) => job.noCache && InChain(job, key)
    case Releasing(job) => job.noCache && InChain(job, key)
    case Pruning(todo) => key in todo
    case Idle => true
    case _ => false
  }

  ghost predicate LacksOnly(w0: World, w: World, actor: Actor) {
    forall key :: Cached(w0, key) && !Cached(w, key) ==> MayLack(actor, key)
  }

  /** The instances it takes for workers are named like workers. */
  predicate NamesWorkers(actor: Actor) {
    match actor
    case Cleaning(_, leftovers) => forall n :: n in leftovers ==> n.WorkerName?
    case Building(_, _, live) => live.Some? ==> live.value.WorkerName?
    case Discarding(_, worker) => worker.WorkerName?
    case _ => true
  }

  ghost predicate SameEntriesBut(w: World, w': World, gone: set<Key>) {
    forall key :: key !in gone && Cached(w, key) ==> Cached(w', key)
  }

  lemma TouchingLoses(w: World, w': World, n: Name)
    requires OnlyTouches(w, w', n)
    ensures SameEntriesBut(w, w', if n.CacheName? then {n.key} else {})
  {
    forall key | Cached(w, key) && CacheName(key) != n ensures Cached(w', key) {
      assert CacheName(key) in w.instances - {n} && CacheName(key) in w'.instances - {n};
    }
  }

  lemma WorkLoses(w: World, actor: Actor, w': World, actor': Actor)
    requires actor.Building? && actor.next < |actor.job.inputs.stages| && actor.live.Some?
    requires Step(w, actor, w', actor') && NamesWorkers(actor)
    ensures NamesWorkers(actor')
    ensures forall key :: Cached(w, key) && !Cached(w', key) ==>
              actor.job.noCache && key == KeyAt(actor.job.inputs, actor.next)
    ensures actor'.Building? && actor'.live.None? ==> Cached(w', KeyAt(actor.job.inputs, actor.next))
    ensures actor'.Building? ==> actor'.job == actor.job && (actor'.live.Some? ==> actor' == actor)
    ensures actor'.Building? || actor'.Discarding? || actor'.Releasing?
    ensures !actor'.Building? ==> actor'.job == actor.job
  {
    hide KeyAt;
    var worker, key := actor.live.value, KeyAt(actor.job.inputs, actor.next);
    if e, ok :| Applied(w, w', worker, e, ok)
                && (actor' == actor || (!ok && actor' == Discarding(actor.job, worker))) {
      TouchingLoses(w, w', worker);
    } else if actor.job.noCache && Removed(w, w', CacheName(key)) && actor' == actor {
      TouchingLoses(w, w', CacheName(key));
    }
  }

  lemma CleaningLacks(w0: World, w: World, job: Job, todo: set<Name>, w': World, actor': Actor)
    requires CleanStep(w, job, todo, w', actor')
    requires NamesWorkers(Cleaning(job, todo)) && LacksOnly(w0, w, Cleaning(job, todo))
    ensures NamesWorkers(actor') && LacksOnly(w0, w', actor')
  {
    hide KeyAt;
    if n :| n in todo && Removed(w, w', n) && actor' == Cleaning(job, todo - {n}) {
      TouchingLoses(w, w', n);
    }
  }

  lemma CopyingLacks(w0: World, w: World, actor: Actor, worker: Name, w': World, actor': Actor)
    requires actor.Building? && actor.live.None? && actor.next < |actor.job.inputs.stages|
    requires CopyStep(w, actor.job, actor.next, worker, w', actor') && LacksOnly(w0, w, actor)
    ensures NamesWorkers(actor') && LacksOnly(w0, w', actor')
  {
    hide KeyAt;
    if OnlyTouches(w, w', worker) {
      TouchingLoses(w, w', worker);
    }
  }

  lemma WorkingLacks(w0: World, w: World, actor: Actor, w': World, actor': Actor)
    requires actor.Building? && actor.live.Some? && actor.next < |actor.job.inputs.stages|
    requires Step(w, actor, w', actor') && NamesWorkers(actor) && LacksOnly(w0, w, actor)
    ensures NamesWorkers(actor') && LacksOnly(w0, w', actor')
  {
    WorkLoses(w, actor, w', actor');
    hide KeyAt, Step;
    assert InChain(actor.job, KeyAt(actor.job.inputs, actor.next));
  }

  lemma ReleasingLacks(w0: World, w: World, job: Job, w': World, actor': Actor)
    requires LettingGoStep(w, job, w', actor') && LacksOnly(w0, w, Releasing(job))
    ensures NamesWorkers(actor') && LacksOnly(w0, w', actor')
  {
    if key, ok :| key in job.listed && Applied(w, w', CacheName(key), Detach, ok) && actor' == Releasing(job) {
      TouchingLoses(w, w', CacheName(key));
      assert Cached(w, key) ==> Cached(w', key);
    }
  }

  lemma StepLacks(w0: World, w: World, actor: Actor, w': World, actor': Actor)
    requires Step(w, actor, w', actor') && NamesWorkers(actor) && LacksOnly(w0, w, actor)
    ensures NamesWorkers(actor') && LacksOnly(w0, w', actor')
  {
    match actor
    case Cleaning(job, todo) => CleaningLacks(w0, w, job, todo, w', actor');
    case Building(job, next, live) =>
      if next < |job.inputs.stages| {
        if live.None? {
          var worker :| CopyStep(w, job, next, worker, w', actor');
          CopyingLacks(w0, w, actor, worker, w', actor');
        } else {
          WorkingLacks(w0, w, actor, w', actor');
        }
      }
    case Releasing(job) => ReleasingLacks(w0, w, job, w', actor');
    case Discarding(job, worker) =>
      if Removed(w, w', worker) {
        TouchingLoses(w, w', worker);
      }
    case Pruning(todo) =>
      if key :| key in todo && Removed(w, w', CacheName(key)) && actor' == actor {
        TouchingLoses(w, w', CacheName(key));
      }
    case _ =>
  }

  /** Wherever a run stands, it lacks no entry that was there at its beginning but those. */
  lemma {:induction false} RunLacks(run: seq<Moment>, i: nat)
    requires Solo(run) && i < |run| && run[0].actor.Planning?
    ensures NamesWorkers(run[i].actor) && LacksOnly(run[0].world, run[i].world, run[i].actor)
  {
    hide Step, NamesWorkers, LacksOnly;
    if i == 0 {
      NothingLacking(run[0].world, run[0].actor);
    } else {
      RunLacks(run, i - 1);
      StepLacks(run[0].world, run[i - 1].world, run[i - 1].actor, run[(i - 1) + 1].world, run[(i - 1) + 1].actor);
    }
  }

  lemma NothingLacking(w: World, actor: Actor)
    requires actor.Planning?
    ensures NamesWorkers(actor) && LacksOnly(w, w, actor)
  {
  }

  // ---- single commands ------------------------------------------------------------------------------

  /** In the middle of a stage, with this worker. */
  predicate WorkingIn(actor: Actor, worker: Name) {
    actor.Building? && actor.live == Some(worker) && actor.next < |actor.job.inputs.stages|
  }

  function StageKeyOf(actor: Actor): Key
    requires actor.Building? && actor.next < |actor.job.inputs.stages|
  {
    KeyAt(actor.job.inputs, actor.next)
  }

  lemma EditIsStep(w: World, actor: Actor, w': World, worker: Name, e: Edit, ok: bool)
    requires WorkingIn(actor, worker) && Applied(w, w', worker, e, ok)
    ensures Step(w, actor, w', actor)
  {
    hide Applied;
  }

  /** A stage is given up between two commands. */
  lemma GivingUpIsStep(w: World, actor: Actor, worker: Name)
    requires WorkingIn(actor, worker)
    ensures Step(w, actor, w, Discarding(actor.job, worker)) && Step(w, actor, w, Releasing(actor.job))
  {
    assert Applied(w, w, worker, Attach, false);
  }

  lemma MakingIsStep(w: World, actor: Actor, w': World, worker: Name, ok: bool)
    requires actor.Building? && actor.live.None? && actor.next < |actor.job.inputs.stages| && worker.WorkerName?
    requires if actor.next == 0 then Created(w, w', worker, FreshWorker(actor.job.inputs.fingerprint), ok)
             else && Cached(w, KeyAt(actor.job.inputs, actor.next - 1))
                  && Created(w, w', worker, w.instances[CacheName(KeyAt(actor.job.inputs, actor.next - 1))], ok)
    ensures ok ==> Step(w, actor, w', actor.(live := Some(worker)))
    ensures !ok ==> Step(w, actor, w', if actor.next == 0 then Releasing(actor.job) else Discarding(actor.job, worker))
  {
    hide Created;
    var actor' := if ok then actor.(live := Some(worker))
                  else if actor.next == 0 then Releasing(actor.job) else Discarding(actor.job, worker);
    assert CopyStep(w, actor.job, actor.next, worker, w', actor');
  }

  lemma ReplacingIsStep(w: World, actor: Actor, w': World, worker: Name)
    requires WorkingIn(actor, worker) && actor.job.noCache && Removed(w, w', CacheName(StageKeyOf(actor)))
    ensures Step(w, actor, w', actor)
  {
    hide Removed;
  }

  lemma PlacingIsStep(w: World, actor: Actor, w': World, worker: Name, ok: bool)
    requires WorkingIn(actor, worker) && Renamed(w, w', worker, CacheName(StageKeyOf(actor)), ok)
    ensures Step(w, actor, w', if ok then Building(actor.job, actor.next + 1, None) else Releasing(actor.job))
  {
    hide Renamed;
  }

  /** A worker is removed, as a leftover or because its stage has failed. */
  predicate Unwanted(actor: Actor, worker: Name) {
    (actor.Cleaning? && worker in actor.leftovers) || (actor.Discarding? && worker == actor.worker)
  }

  function AfterRemoval(actor: Actor, worker: Name): Actor
    requires Unwanted(actor, worker)
  {
    if actor.Cleaning? then Cleaning(actor.job, actor.leftovers - {worker}) else Releasing(actor.job)
  }

  lemma RemovingIsStep(w: World, actor: Actor, w': World, worker: Name)
    requires Unwanted(actor, worker) && Removed(w, w', worker)
    ensures Step(w, actor, w', AfterRemoval(actor, worker))
  {
    hide Removed;
  }

  lemma PolicyIsStep(w: World, actor: Actor, w': World)
    requires actor.Cleaning? && actor.leftovers == {} && OnlyAcl(w, w')
    ensures Step(w, actor, w', actor)
    ensures w'.acl == Some(actor.job.inputs.allow) ==> Step(w, actor, w', Building(actor.job, actor.job.first, None))
  {
  }

  lemma DetachingIsStep(w: World, actor: Actor, w': World, key: Key, ok: bool)
    requires actor.Releasing? && key in actor.job.listed
    requires Quiet(w, w') || Applied(w, w', CacheName(key), Detach, ok)
    ensures Step(w, actor, w', actor)
  {
    hide Applied;
  }

  lemma DeletingAclIsStep(w: World, actor: Actor, w': World)
    requires actor.Releasing? && OnlyAcl(w, w') && (w'.acl == w.acl || (w'.acl.None? && !AclInUse(w)))
    ensures Step(w, actor, w', Idle)
  {
  }

  /** Saving the manifest and publishing touch no instance and no ACL. */
  lemma QuietIsStep(w: World, actor: Actor, w': World)
    requires Quiet(w, w') && (actor.Planning? || actor.Cleaning? || actor.Releasing?)
    ensures Step(w, actor, w', actor)
  {
  }

  lemma DroppingIsStep(w: World, actor: Actor, w': World, key: Key)
    requires actor.Pruning? && key in actor.todo && Removed(w, w', CacheName(key))
    ensures Step(w, actor, w', actor)
  {
    hide Removed;
  }

  lemma PlannedBuildIsStep(w: World, job: Job)
    requires HitsOf(job, w) && (job.noCache ==> job.first == 0) && job.listed == EntriesOf(w)
    ensures Step(w, Planning, w, Listing(job))
  {
  }

  lemma ListedWorkersIsStep(w: World, job: Job)
    ensures Step(w, Listing(job), w, Cleaning(job, WorkersOf(w)))
  {
  }

  lemma PlannedPruneIsStep(w: World, todo: set<Key>)
    requires todo <= EntriesOf(w)
    ensures Step(w, Planning, w, Pruning(todo))
  {
  }
}
