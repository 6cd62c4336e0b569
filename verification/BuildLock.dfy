/** Several builds and prunes at once, interleaved command by command.

    One host-wide lock is held from planning to the end of every build and prune; a crash lets
    go of it. Every actor acts on what it saw when it planned, so the question is whether that
    is still true when it acts. */
module BuildLock {
  import opened Prelude
  import opened StageKeys
  import opened History
  import opened Host
  import opened BuildPlan
  import opened ActorSteps

  datatype System = System(world: World, actors: seq<Actor>, holder: Option<nat>)

  function Freed(s: System, a: nat): Option<nat> {
    if s.holder == Some(a) then None else s.holder
  }

  /** One step of the system. With `locked`, an actor starts only while nobody holds the lock. */
  ghost predicate NextBy(s: System, s': System, a: nat, locked: bool)
    requires a < |s.actors|
  {
    && |s'.actors| == |s.actors|
    && (forall b :: 0 <= b < |s.actors| && b != a ==> s'.actors[b] == s.actors[b])
    && var actor, actor' := s.actors[a], s'.actors[a];
       || (actor.Idle? && (locked ==> s.holder.None?) && actor' == Planning
           && s'.holder == Some(a) && s'.world == s.world)
       || (!actor.Idle? && actor' == Idle && s'.holder == Freed(s, a) && s'.world == s.world)
       || (Step(s.world, actor, s'.world, actor')
           && s'.holder == if actor'.Idle? then Freed(s, a) else s.holder)
  }

  ghost predicate Next(s: System, s': System, locked: bool) {
    exists a :: 0 <= a < |s.actors| && NextBy(s, s', a, locked)
  }

  ghost predicate Execution(run: seq<System>, locked: bool) {
    && |run| > 0
    && run[0].holder.None? && (forall a :: 0 <= a < |run[0].actors| ==> run[0].actors[a].Idle?)
    && forall i :: 0 <= i < |run| - 1 ==> Next(run[i], run[i + 1], locked)
  }

  // ---- what must never happen ----------------------------------------------------------------------

  /** The parent that a stage is about to copy exists. */
  ghost predicate ParentsExist(s: System) {
    forall a :: 0 <= a < |s.actors| && s.actors[a].Building? && s.actors[a].live.None?
                && 0 < s.actors[a].next < |s.actors[a].job.inputs.stages|
      ==> Cached(s.world, KeyAt(s.actors[a].job.inputs, s.actors[a].next - 1))
  }

  /** Nobody is about to delete another actor's live worker, and no live worker has been deleted. */
  ghost predicate WorkersSurvive(s: System) {
    && (forall a :: 0 <= a < |s.actors| && s.actors[a].Building? && s.actors[a].live.Some?
          ==> s.actors[a].live.value in s.world.instances)
    && (forall a, b :: 0 <= a < |s.actors| && 0 <= b < |s.actors| && a != b
                       && s.actors[a].Cleaning? && s.actors[b].Building? && s.actors[b].live.Some?
          ==> s.actors[b].live.value !in s.actors[a].leftovers)
  }

  /** Every build in progress finds its own allowlist in force. */
  ghost predicate OwnAclInForce(s: System) {
    forall a :: 0 <= a < |s.actors| && s.actors[a].Building? ==> s.world.acl == Some(s.actors[a].job.inputs.allow)
  }

  // ---- with the lock -----------------------------------------------------------------------------------

  /** What an actor remembers is still true. */
  ghost predicate StillTrue(w: World, actor: Actor) {
    match actor
    case Listing(job) => HitsOf(job, w)
    case Cleaning(job, todo) => HitsOf(job, w) && forall n :: n in todo ==> n.WorkerName?
    case Building(job, next, live) =>
      && job.first <= next <= |job.inputs.stages|
      && (forall i :: 0 <= i < next ==> Cached(w, KeyAt(job.inputs, i)))
      && w.acl == Some(job.inputs.allow)
      && (live.Some? ==> live.value.WorkerName? && live.value in w.instances)
    case _ => true
  }

  ghost predicate LockInvariant(s: System) {
    && (forall a :: 0 <= a < |s.actors| && !s.actors[a].Idle? ==> s.holder == Some(a))
    && (forall a :: 0 <= a < |s.actors| ==> StillTrue(s.world, s.actors[a]))
  }

  lemma RemovedOther(w: World, w': World, n: Name)
    requires Removed(w, w', n)
    ensures forall m :: m != n ==> (m in w'.instances <==> m in w.instances)
  {
    forall m | m != n ensures m in w'.instances <==> m in w.instances {
      assert m in w'.instances - {n} <==> m in w.instances - {n};
    }
  }

  lemma TouchedOther(w: World, w': World, n: Name)
    requires OnlyTouches(w, w', n)
    ensures forall m :: m != n ==> (m in w'.instances <==> m in w.instances)
  {
    forall m | m != n ensures m in w'.instances <==> m in w.instances {
      assert m in w'.instances - {n} <==> m in w.instances - {n};
    }
  }

  lemma CleanKeeps(w: World, job: Job, todo: set<Name>, w': World, actor': Actor)
    requires StillTrue(w, Cleaning(job, todo)) && CleanStep(w, job, todo, w', actor')
    ensures StillTrue(w', actor')
  {
    if n :| n in todo && Removed(w, w', n) && actor' == Cleaning(job, todo - {n}) {
      RemovedOther(w, w', n);
    }
  }

  lemma CopyKeeps(w: World, job: Job, next: nat, worker: Name, w': World, actor': Actor)
    requires StillTrue(w, Building(job, next, None)) && next < |job.inputs.stages|
    requires CopyStep(w, job, next, worker, w', actor')
    ensures StillTrue(w', actor')
  {
    if OnlyTouches(w, w', worker) {
      TouchedOther(w, w', worker);
    }
  }

  lemma WorkKeeps(w: World, job: Job, next: nat, worker: Name, w': World, actor': Actor)
    requires StillTrue(w, Building(job, next, Some(worker))) && next < |job.inputs.stages|
    requires WorkStep(w, job, next, worker, w', actor')
    ensures StillTrue(w', actor')
  {
    var key := KeyAt(job.inputs, next);
    forall i | 0 <= i < next ensures KeyAt(job.inputs, i) != key {
      ChainKeysDistinct(job.inputs, job.inputs, i, next);
    }
    if e, ok :| Applied(w, w', worker, e, ok)
                && (actor' == Building(job, next, Some(worker)) || (!ok && actor' == Discarding(job, worker))) {
      TouchedOther(w, w', worker);
    } else if job.noCache && Removed(w, w', CacheName(key)) && actor' == Building(job, next, Some(worker)) {
      RemovedOther(w, w', CacheName(key));
    }
  }

  /** Alone, an actor's memory stays true through its own commands. */
  lemma StepKeeps(w: World, actor: Actor, w': World, actor': Actor)
    requires StillTrue(w, actor) && Step(w, actor, w', actor')
    ensures StillTrue(w', actor')
  {
    match actor
    case Idle =>
    case Planning =>
    case Listing(job) =>
    case Cleaning(job, todo) => CleanKeeps(w, job, todo, w', actor');
    case Building(job, next, live) =>
      if next < |job.inputs.stages| {
        if live.None? {
          var worker :| CopyStep(w, job, next, worker, w', actor');
          CopyKeeps(w, job, next, worker, w', actor');
        } else {
          WorkKeeps(w, job, next, live.value, w', actor');
        }
      }
    case Discarding(job, worker) =>
    case Releasing(job) =>
    case Pruning(todo) =>
  }

  lemma InvariantStep(s: System, s': System)
    requires LockInvariant(s) && Next(s, s', true)
    ensures LockInvariant(s')
  {
    var a :| 0 <= a < |s.actors| && NextBy(s, s', a, true);
    if !s.actors[a].Idle? && Step(s.world, s.actors[a], s'.world, s'.actors[a]) {
      StepKeeps(s.world, s.actors[a], s'.world, s'.actors[a]);
    }
    forall b | 0 <= b < |s.actors| ensures StillTrue(s'.world, s'.actors[b]) {
      if b != a {
        assert s'.actors[b] == s.actors[b];
        if !s.actors[a].Idle? {
          assert s.actors[b].Idle?;
        }
      }
    }
  }

  lemma {:induction false} InvariantHolds(run: seq<System>, i: nat)
    requires Execution(run, true) && i < |run|
    ensures LockInvariant(run[i])
  {
    if i > 0 {
      InvariantHolds(run, i - 1);
      assert Next(run[i - 1], run[(i - 1) + 1], true);
      InvariantStep(run[i - 1], run[i]);
    }
  }

  /** In every execution of any number of builds and prunes under the lock, with a failure or a
      crash anywhere: the parent a stage copies exists, no actor deletes another actor's worker,
      and every build finds its own ACL in force. */
  lemma LockedExecutionsAreSafe(run: seq<System>, i: nat)
    requires Execution(run, true) && i < |run|
    ensures ParentsExist(run[i]) && WorkersSurvive(run[i]) && OwnAclInForce(run[i])
  {
    InvariantHolds(run, i);
  }

  // ---- the builder's own runs ----------------------------------------------------------------------------

  function After(s: System, a: nat, moment: Moment): System
    requires a < |s.actors|
  {
    System(moment.world, s.actors[a := moment.actor], if moment.actor.Idle? then Freed(s, a) else s.holder)
  }

  /** Each step of a run is a step of any system in which its actor stands where the run does. */
  lemma RunStepIsNext(s: System, a: nat, run: seq<Moment>, i: nat, locked: bool)
    requires Solo(run) && i + 1 < |run| && a < |s.actors|
    requires s.world == run[i].world && s.actors[a] == run[i].actor
    ensures Next(s, After(s, a, run[i + 1]), locked)
  {
    hide Step;
    assert NextBy(s, After(s, a, run[i + 1]), a, locked);
  }

  /** A run as an execution with `others` idle actors beside it. */
  function Beside(run: seq<Moment>, others: nat): seq<System>
    requires |run| > 0
  {
    [System(run[0].world, seq(others + 1, _ => Idle), None)]
    + seq(|run|, i requires 0 <= i < |run| =>
        System(run[i].world, [run[i].actor] + seq(others, _ => Idle), if run[i].actor.Idle? then None else Some(0)))
  }

  lemma NotIdle(before: Moment, after: Moment)
    requires Step(before.world, before.actor, after.world, after.actor)
    ensures !before.actor.Idle?
  {
  }

  /** What the methods of the builder issue, command by command, is an execution under the lock. */
  lemma RunIsExecution(run: seq<Moment>, trace: seq<World>, from: nat, others: nat)
    requires Follows(run, trace, from)
    ensures Execution(Beside(run, others), true)
  {
    hide Step;
    var all := Beside(run, others);
    assert NextBy(all[0], all[1], 0, true);
    forall i | 0 <= i < |all| - 1 ensures Next(all[i], all[i + 1], true) {
      if i > 0 {
        assert After(all[i], 0, run[i]) == all[i + 1] by {
          NotIdle(run[i - 1], run[(i - 1) + 1]);
          assert all[i].actors[0 := run[i].actor] == all[i + 1].actors;
        }
        RunStepIsNext(all[i], 0, run, i - 1, true);
      }
    }
  }

  /** So whatever is true of all executions under the lock is true of them: in each world that a build
      or prune leaves, its actor's parent, worker and allowlist are in place. */
  lemma RunIsSafe(run: seq<Moment>, trace: seq<World>, from: nat, i: nat)
    requires Follows(run, trace, from) && i < |run|
    ensures StillTrue(run[i].world, run[i].actor)
  {
    RunIsExecution(run, trace, from, 0);
    InvariantHolds(Beside(run, 0), i + 1);
    assert Beside(run, 0)[i + 1].actors[0] == run[i].actor;
  }

  // ---- without the lock --------------------------------------------------------------------------------

  lemma FirstMoves(w: World, x: Actor, w': World, x': Actor, y: Actor, holder: Option<nat>)
    requires Step(w, x, w', x') && !x'.Idle?
    ensures Next(System(w, [x, y], holder), System(w', [x', y], holder), false)
  {
    assert NextBy(System(w, [x, y], holder), System(w', [x', y], holder), 0, false);
  }

  lemma SecondMoves(w: World, x: Actor, y: Actor, w': World, y': Actor, holder: Option<nat>)
    requires Step(w, y, w', y') && !y'.Idle?
    ensures Next(System(w, [x, y], holder), System(w', [x, y'], holder), false)
  {
    assert NextBy(System(w, [x, y], holder), System(w', [x, y'], holder), 1, false);
  }

  lemma BothStart(w: World, x: Actor, y: Actor, holder: Option<nat>)
    ensures x.Idle? ==> Next(System(w, [x, y], holder), System(w, [Planning, y], Some(0)), false)
    ensures y.Idle? ==> Next(System(w, [x, y], holder), System(w, [x, Planning], Some(1)), false)
  {
    assert x.Idle? ==> NextBy(System(w, [x, y], holder), System(w, [Planning, y], Some(0)), 0, false);
    assert y.Idle? ==> NextBy(System(w, [x, y], holder), System(w, [x, Planning], Some(1)), 1, false);
  }

  function FreshJob(inputs: BuildInputs): Job {
    Job(inputs, 0, false, {})
  }

  /** Up to its first worker, a build over an empty cache. */
  lemma OpeningSteps(inputs: BuildInputs, w: World, w1: World, worker: Name, w2: World)
    requires |inputs.stages| > 0 && EntriesOf(w) == {} && worker.WorkerName? && worker !in w1.instances
    requires w1 == w.(acl := Some(inputs.allow))
    requires w2 == w1.(instances := w1.instances[worker := FreshWorker(inputs.fingerprint)])
    ensures Step(w, Planning, w, Listing(FreshJob(inputs)))
    ensures Step(w, Listing(FreshJob(inputs)), w, Cleaning(FreshJob(inputs), WorkersOf(w)))
    ensures Step(w, Cleaning(FreshJob(inputs), {}), w1, Building(FreshJob(inputs), 0, None))
    ensures Step(w1, Building(FreshJob(inputs), 0, None), w2, Building(FreshJob(inputs), 0, Some(worker)))
  {
    assert w2.instances - {worker} == w1.instances - {worker};
    assert CopyStep(w1, FreshJob(inputs), 0, worker, w2, Building(FreshJob(inputs), 0, Some(worker)));
  }

  lemma CleaningStep(job: Job, w: World, worker: Name, w': World)
    requires w' == w.(instances := w.instances - {worker})
    ensures Step(w, Cleaning(job, {worker}), w', Cleaning(job, {}))
  {
    assert Removed(w, w', worker);
    assert {worker} - {worker} == {};
  }

  function Walled(w: World, inputs: BuildInputs): World {
    w.(acl := Some(inputs.allow))
  }

  function WithWorker(w: World, worker: Name, inputs: BuildInputs): World {
    w.(instances := w.instances[worker := FreshWorker(inputs.fingerprint)])
  }

  function Without(w: World, worker: Name): World {
    w.(instances := w.instances - {worker})
  }

  /** The commands of the collision, each the next one its actor remembers to issue. */
  lemma CollisionSteps(inputs: BuildInputs, other: BuildInputs, w: World, worker: Name)
    requires |inputs.stages| > 0 && |other.stages| > 0 && worker.WorkerName?
    requires w.instances == map[] && w.acl.None?
    ensures var mine, theirs := FreshJob(inputs), FreshJob(other);
            var w1 := Walled(w, inputs);
            var w2 := WithWorker(w1, worker, inputs);
            var w3 := Without(w2, worker);
            && Step(w, Planning, w, Listing(mine)) && Step(w, Listing(mine), w, Cleaning(mine, {}))
            && Step(w, Cleaning(mine, {}), w1, Building(mine, 0, None))
            && Step(w1, Building(mine, 0, None), w2, Building(mine, 0, Some(worker)))
            && Step(w2, Planning, w2, Listing(theirs)) && Step(w2, Listing(theirs), w2, Cleaning(theirs, {worker}))
            && Step(w2, Cleaning(theirs, {worker}), w3, Cleaning(theirs, {}))
            && Step(w3, Cleaning(theirs, {}), Walled(w3, other), Building(theirs, 0, None))
  {
    var w1 := Walled(w, inputs);
    var w2 := WithWorker(w1, worker, inputs);
    var w3 := Without(w2, worker);
    assert WorkersOf(w) == {} && WorkersOf(w2) == {worker} && EntriesOf(w) == {} && EntriesOf(w2) == {};
    OpeningSteps(inputs, w, w1, worker, w2);
    CleaningStep(FreshJob(other), w2, worker, w3);
  }

  /** The lives of two builds: the second starts while the first is inside its first stage. */
  function CollisionRun(inputs: BuildInputs, other: BuildInputs, w: World, worker: Name): seq<System> {
    var mine, theirs := FreshJob(inputs), FreshJob(other);
    var w1 := Walled(w, inputs);
    var w2 := WithWorker(w1, worker, inputs);
    var w3 := Without(w2, worker);
    var live := Building(mine, 0, Some(worker));
    [ System(w, [Idle, Idle], None),
      System(w, [Planning, Idle], Some(0)),
      System(w, [Listing(mine), Idle], Some(0)),
      System(w, [Cleaning(mine, {}), Idle], Some(0)),
      System(w1, [Building(mine, 0, None), Idle], Some(0)),
      System(w2, [live, Idle], Some(0)),
      System(w2, [live, Planning], Some(1)),
      System(w2, [live, Listing(theirs)], Some(1)),
      System(w2, [live, Cleaning(theirs, {worker})], Some(1)),
      System(w3, [live, Cleaning(theirs, {})], Some(1)),
      System(Walled(w3, other), [live, Building(theirs, 0, None)], Some(1)) ]
  }

  lemma CollisionIsExecution(inputs: BuildInputs, other: BuildInputs, w: World, worker: Name)
    requires |inputs.stages| > 0 && |other.stages| > 0 && worker.WorkerName?
    requires w.instances == map[] && w.acl.None?
    ensures Execution(CollisionRun(inputs, other, w, worker), false)
  {
    hide Step, NextBy, Next, Walled, WithWorker, Without;
    CollisionSteps(inputs, other, w, worker);
    var mine, theirs := FreshJob(inputs), FreshJob(other);
    var w1 := Walled(w, inputs);
    var w2 := WithWorker(w1, worker, inputs);
    var w3 := Without(w2, worker);
    var live := Building(mine, 0, Some(worker));
    BothStart(w, Idle, Idle, None);
    FirstMoves(w, Planning, w, Listing(mine), Idle, Some(0));
    FirstMoves(w, Listing(mine), w, Cleaning(mine, {}), Idle, Some(0));
    FirstMoves(w, Cleaning(mine, {}), w1, Building(mine, 0, None), Idle, Some(0));
    FirstMoves(w1, Building(mine, 0, None), w2, live, Idle, Some(0));
    BothStart(w2, live, Idle, Some(0));
    SecondMoves(w2, live, Planning, w2, Listing(theirs), Some(1));
    SecondMoves(w2, live, Listing(theirs), w2, Cleaning(theirs, {worker}), Some(1));
    SecondMoves(w2, live, Cleaning(theirs, {worker}), w3, Cleaning(theirs, {}), Some(1));
    SecondMoves(w3, live, Cleaning(theirs, {}), Walled(w3, other), Building(theirs, 0, None), Some(1));
  }

  /** Without the lock two plain builds are enough: the second one takes the first one's live
      worker for a leftover, and its allowlist replaces the first one's under a running stage. */
  lemma UnlockedBuildsCollide(inputs: BuildInputs, other: BuildInputs, w: World) returns (run: seq<System>)
    requires |inputs.stages| > 0 && |other.stages| > 0 && inputs.allow != other.allow
    requires w.instances == map[] && w.acl.None?
    ensures Execution(run, false)
    ensures exists i :: 0 <= i < |run| && !WorkersSurvive(run[i])
    ensures exists i :: 0 <= i < |run| && !OwnAclInForce(run[i])
  {
    var worker := WorkerName(KeyAt(inputs, 0), 0);
    run := CollisionRun(inputs, other, w, worker);
    CollisionIsExecution(inputs, other, w, worker);
    hide Execution;
    var live := Building(FreshJob(inputs), 0, Some(worker));
    assert run[8].actors == [live, Cleaning(FreshJob(other), {worker})];
    assert !WorkersSurvive(run[8]) by {
      assert run[8].actors[0] == live && run[8].actors[1].leftovers == {worker};
    }
    assert run[10].actors == [live, Building(FreshJob(other), 0, None)];
    assert !OwnAclInForce(run[10]) by {
      assert run[10].actors[0] == live && run[10].world.acl == Some(other.allow);
    }
  }

  // ---- a prune against a build ---------------------------------------------------------------------------

  /** The build is about to copy the entry of its first stage; the prune has planned to delete it. */
  function PruneRun(inputs: BuildInputs, w: World): seq<System>
    requires |inputs.stages| > 1
  {
    var key := KeyAt(inputs, 0);
    var job := Job(inputs, 1, false, {key});
    var w1 := Walled(w, inputs);
    [ System(w, [Idle, Idle], None),
      System(w, [Planning, Idle], Some(0)),
      System(w, [Listing(job), Idle], Some(0)),
      System(w, [Cleaning(job, {}), Idle], Some(0)),
      System(w1, [Building(job, 1, None), Idle], Some(0)),
      System(w1, [Building(job, 1, None), Planning], Some(1)),
      System(w1, [Building(job, 1, None), Pruning({key})], Some(1)),
      System(Without(w1, CacheName(key)), [Building(job, 1, None), Pruning({key})], Some(1)) ]
  }

  lemma PruneSteps(inputs: BuildInputs, w: World)
    requires |inputs.stages| > 1 && w.acl.None?
    requires w.instances.Keys == {CacheName(KeyAt(inputs, 0))}
    ensures var key := KeyAt(inputs, 0);
            var job := Job(inputs, 1, false, {key});
            var w1 := Walled(w, inputs);
            && Step(w, Planning, w, Listing(job)) && Step(w, Listing(job), w, Cleaning(job, {}))
            && Step(w, Cleaning(job, {}), w1, Building(job, 1, None))
            && Step(w1, Planning, w1, Pruning({key}))
            && Step(w1, Pruning({key}), Without(w1, CacheName(key)), Pruning({key}))
  {
    var key := KeyAt(inputs, 0);
    var w1 := Walled(w, inputs);
    assert Cached(w, key) && EntriesOf(w) == {key} && WorkersOf(w) == {} && EntriesOf(w1) == {key};
    assert Removed(w1, Without(w1, CacheName(key)), CacheName(key));
  }

  lemma PruneIsExecution(inputs: BuildInputs, w: World)
    requires |inputs.stages| > 1 && w.acl.None?
    requires w.instances.Keys == {CacheName(KeyAt(inputs, 0))}
    ensures Execution(PruneRun(inputs, w), false)
  {
    hide Step, NextBy, Next, Walled, Without;
    PruneSteps(inputs, w);
    var key := KeyAt(inputs, 0);
    var job := Job(inputs, 1, false, {key});
    var building := Building(job, 1, None);
    var w1 := Walled(w, inputs);
    BothStart(w, Idle, Idle, None);
    FirstMoves(w, Planning, w, Listing(job), Idle, Some(0));
    FirstMoves(w, Listing(job), w, Cleaning(job, {}), Idle, Some(0));
    FirstMoves(w, Cleaning(job, {}), w1, building, Idle, Some(0));
    BothStart(w1, building, Idle, Some(0));
    SecondMoves(w1, building, Planning, w1, Pruning({key}), Some(1));
    SecondMoves(w1, building, Pruning({key}), Without(w1, CacheName(key)), Pruning({key}), Some(1));
  }

  /** Without the lock a prune can delete the entry that a build is about to copy. */
  lemma UnlockedPruneCollides(inputs: BuildInputs, w: World) returns (run: seq<System>)
    requires |inputs.stages| > 1 && w.acl.None?
    requires w.instances.Keys == {CacheName(KeyAt(inputs, 0))}
    ensures Execution(run, false)
    ensures exists i :: 0 <= i < |run| && !ParentsExist(run[i])
  {
    run := PruneRun(inputs, w);
    PruneIsExecution(inputs, w);
    hide Execution;
    var key := KeyAt(inputs, 0);
    assert !ParentsExist(run[7]) by {
      assert run[7].actors[0] == Building(Job(inputs, 1, false, {key}), 1, None) && !Cached(run[7].world, key);
    }
  }
}
