/** The host as the image builder sees it: Incus instances, the one build ACL, published
    images, the build manifest, and a clock.

    Every command may fail. A command that reports failure may have done nothing, may have
    done its work all the same, or may have left its instance damaged. `trace` records the
    world after every command, so what holds of the trace holds wherever a build is killed. */
module Host {
  import opened Prelude
  import opened StageKeys
  import opened History

  /** Instance names by prefix: `sandboxsh-cache-<key>`, `sandboxsh-build-<key>-<hex>`, others. */
  datatype Name =
    | CacheName(key: Key)
    | WorkerName(forKey: Key, suffix: nat)
    | OtherName(text: string)

  /** The `user.sandboxsh.cache.*` configuration of an instance. */
  datatype Stamps = Stamps(
    key: Key, stage: string, parent: Option<Key>, source: string, created: int,
    generation: int, stageGeneration: int, allow: seq<string>, script: string, inputs: Declared)

  /** A guest that is up: its agent may not have answered yet, and cloud-init may still be at work. */
  datatype Guest = Off | Booting | Reachable | Settled

  /** `acl`: the NIC names the build ACL. `pinned`: the hosts block is in `/etc/hosts`.
      `root`: pushed files. `flushed`: nothing is lost by a forced stop. `lineage`: when the
      first stage started, then every `created` stamp, both inherited by copies. */
  datatype Instance = Instance(
    content: Content, guest: Guest, acl: bool, pinned: bool, root: map<string, string>,
    flushed: bool, stamps: Option<Stamps>, lineage: seq<int>)

  datatype Image = Image(key: Option<Key>, content: Content)

  datatype Pin = Pin(fingerprint: string, architecture: string)

  datatype Manifest = Manifest(
    generation: int, stageGenerations: map<string, int>, sources: map<string, Pin>)

  datatype World = World(
    instances: map<Name, Instance>, acl: Option<seq<string>>, images: map<string, Image>,
    manifest: Manifest, now: int)

  datatype Edit =
    | Attach
    | Start
    | AwaitAgent
    | AwaitCloudInit
    | PinHosts
    | Push(file: string, text: string)
    | RunStage(name: string, arguments: seq<string>, generation: int, stageGeneration: int)
    | RemoveFiles(files: set<string>)
    | UnpinHosts
    | Sync
    | ForceStop
    | Detach
    | Stamp(stamps: Stamps)

  /** Commands can be run inside the guest once its agent has answered. */
  predicate Answers(i: Instance) {
    i.guest.Reachable? || i.guest.Settled?
  }

  /** The instance after a command that worked, or `None` when Incus refuses the command. Until
      cloud-init is done it may write `/etc/hosts` anew, so what was pinned before is lost. */
  function Edited(w: World, i: Instance, e: Edit): Option<Instance> {
    match e
    case Attach => if w.acl.Some? then Some(i.(acl := true)) else None
    case Start => if i.guest.Off? then Some(i.(guest := Booting, flushed := false)) else None
    case AwaitAgent => if i.guest.Off? then None else Some(if i.guest.Booting? then i.(guest := Reachable) else i)
    case AwaitCloudInit =>
      if Answers(i) then Some(i.(guest := Settled, pinned := i.pinned && i.guest.Settled?)) else None
    case PinHosts => if Answers(i) then Some(i.(pinned := true, flushed := false)) else None
    case Push(file, text) =>
      if Answers(i) then Some(i.(root := i.root[file := text], flushed := false)) else None
    case RunStage(name, arguments, generation, stageGeneration) =>
      if Answers(i) && ScriptFile(name) in i.root then
        var allow := if i.acl then w.acl else None;
        var run := Exec(name, i.root, arguments, allow, generation, stageGeneration);
        Some(i.(content := i.content.(execs := i.content.execs + [run]), flushed := false,
                lineage := if i.content.execs == [] then [w.now] else i.lineage))
      else None
    case RemoveFiles(files) =>
      if Answers(i) then Some(i.(root := i.root - files, flushed := false)) else None
    case UnpinHosts => if Answers(i) then Some(i.(pinned := false, flushed := false)) else None
    case Sync => if Answers(i) then Some(i.(flushed := true)) else None
    case ForceStop =>
      if i.guest.Off? then None
      else Some(i.(guest := Off, flushed := true,
                   content := i.content.(intact := i.content.intact && i.flushed)))
    case Detach => Some(i.(acl := false))
    case Stamp(stamps) => Some(i.(stamps := Some(stamps), lineage := i.lineage + [stamps.created]))
  }

  function Damaged(i: Instance): Instance {
    i.(content := i.content.(intact := false))
  }

  /** Only a command that acts on a guest running before or after it can damage the disk. */
  predicate CanDamage(e: Edit, before: Instance, after: Instance) {
    !e.AwaitAgent? && !e.AwaitCloudInit? && !(before.guest.Off? && after.guest.Off?)
  }

  function FreshWorker(fingerprint: string): Instance {
    Instance(Content(fingerprint, [], true), Off, false, false, map[], true, None, [])
  }

  ghost predicate SameHost(w: World, w': World) {
    w'.acl == w.acl && w'.images == w.images && w'.manifest == w.manifest && w'.now >= w.now
  }

  /** `w'` is `w` after a command that changed at most instance `n`. */
  ghost predicate OnlyTouches(w: World, w': World, n: Name) {
    SameHost(w, w') && w'.instances - {n} == w.instances - {n}
  }

  /** The effect of one instance command, including the ways it can fail. */
  ghost predicate Applied(w: World, w': World, n: Name, e: Edit, ok: bool) {
    && OnlyTouches(w, w', n)
    && (ok ==> n in w.instances && Edited(w, w.instances[n], e).Some?
               && w'.instances == w.instances[n := Edited(w, w.instances[n], e).value])
    && (!ok ==> || w'.instances == w.instances
                || (n in w.instances && Edited(w, w.instances[n], e).Some?
                    && var after := Edited(w, w.instances[n], e).value;
                    || w'.instances == w.instances[n := after]
                    || (CanDamage(e, w.instances[n], after) && w'.instances == w.instances[n := Damaged(after)])))
  }

  /** The effect of creating instance `n` as `made`. */
  ghost predicate Created(w: World, w': World, n: Name, made: Instance, ok: bool) {
    && OnlyTouches(w, w', n)
    && (ok ==> n !in w.instances && w'.instances == w.instances[n := made])
    && (!ok ==> || w'.instances == w.instances
                || (n !in w.instances
                    && (w'.instances == w.instances[n := made] || w'.instances == w.instances[n := Damaged(made)])))
  }

  /** The effect of renaming instance `n`, which must be stopped, to a name that must be free. */
  ghost predicate Renamed(w: World, w': World, n: Name, target: Name, ok: bool) {
    && SameHost(w, w')
    && (ok ==> Moved(w, w', n, target))
    && (!ok ==> w'.instances == w.instances || Moved(w, w', n, target))
  }

  ghost predicate Moved(w: World, w': World, n: Name, target: Name) {
    && n in w.instances && target !in w.instances && w.instances[n].guest.Off?
    && w'.instances == w.instances[target := w.instances[n]] - {n}
  }

  ghost predicate OnlyAcl(w: World, w': World) {
    w' == w.(acl := w'.acl, now := w'.now) && w'.now >= w.now
  }

  /** The effect of creating the ACL: one that is there is kept. */
  ghost predicate AclCreated(w: World, w': World, ok: bool) {
    && OnlyAcl(w, w')
    && (ok ==> w'.acl == if w.acl.None? then Some([]) else w.acl)
    && (!ok ==> w'.acl == w.acl || (w.acl.None? && w'.acl == Some([])))
  }

  /** The effect of writing its rules. */
  ghost predicate RulesPut(w: World, w': World, allow: seq<string>, ok: bool) {
    && OnlyAcl(w, w')
    && (ok ==> w.acl.Some? && w'.acl == Some(allow))
    && (!ok ==> w'.acl == w.acl || (w.acl.Some? && w'.acl == Some(allow)))
  }

  /** `deletes`: this Incus carries out every forced deletion, which most callers do not check. `honest`:
      a command of its that reports failure has had no effect. `able`: it carries out every other
      command that it does not have to refuse. */
  class Incus {
    const deletes: bool
    const honest: bool
    const able: bool
    var world: World
    var trace: seq<World>

    constructor (initial: World, deletes: bool, honest: bool, able: bool)
      ensures world == initial && trace == [initial]
      ensures this.deletes == deletes && this.honest == honest && this.able == able
    {
      world := initial;
      trace := [initial];
      this.deletes := deletes;
      this.honest := honest;
      this.able := able;
    }

    /** How a command goes: 0 for success, 1 and 2 for a failure that had an effect, more for one that
        had none. */
    method Outcome() returns (outcome: nat)
      ensures honest ==> outcome == 0 || outcome > 2
      ensures able ==> outcome == 0
    {
      outcome :| outcome >= 0 && (honest ==> outcome == 0 || outcome > 2) && (able ==> outcome == 0);
    }

    /** What works or not without leaving a trace of its own: a listing, the resolution of an image or
        of host names, writing a file beside the one it is to replace. */
    method Query() returns (ok: bool)
      ensures able ==> ok
    {
      ok := *;
      ok := ok || able;
    }

    /** Ends a command: time passes and the new world is recorded. */
    method Settle(next: World)
      modifies this
      ensures world == next.(now := world.now) && world.now >= next.now
      ensures trace == old(trace) + [world]
    {
      var elapsed :| elapsed >= 0;
      world := next.(now := next.now + elapsed);
      trace := trace + [world];
    }

    /** One command on an existing instance. */
    method Apply(n: Name, e: Edit) returns (ok: bool)
      modifies this
      ensures Applied(old(world), world, n, e, ok)
      ensures honest && !ok ==> world.instances == old(world).instances
      ensures able && n in old(world).instances && Edited(old(world), old(world).instances[n], e).Some? ==> ok
      ensures trace == old(trace) + [world]
    {
      var outcome := Outcome();
      var next := world.instances;
      ok := false;
      if n in world.instances && outcome < 3 {
        var after := Edited(world, world.instances[n], e);
        if after.Some? {
          var damage := outcome == 2 && CanDamage(e, world.instances[n], after.value);
          next := next[n := if damage then Damaged(after.value) else after.value];
          ok := outcome == 0;
        }
      }
      Settle(world.(instances := next));
    }

    method Create(n: Name, made: Instance) returns (ok: bool)
      modifies this
      ensures Created(old(world), world, n, made, ok)
      ensures honest && !ok ==> world.instances == old(world).instances
      ensures able && n !in old(world).instances ==> ok
      ensures trace == old(trace) + [world]
    {
      var outcome := Outcome();
      var next := world.instances;
      ok := false;
      if n !in world.instances && outcome < 3 {
        next := next[n := if outcome == 2 then Damaged(made) else made];
        ok := outcome == 0;
      }
      Settle(world.(instances := next));
    }

    /** `init` from a pinned image. */
    method Init(n: Name, fingerprint: string) returns (ok: bool)
      modifies this
      ensures Created(old(world), world, n, FreshWorker(fingerprint), ok)
      ensures able && n !in old(world).instances ==> ok
      ensures trace == old(trace) + [world]
    {
      ok := Create(n, FreshWorker(fingerprint));
    }

    /** `copy`: everything is inherited, the stamps and the NIC's ACL reference included. */
    method Copy(from: Name, n: Name) returns (ok: bool)
      modifies this
      ensures from in old(world).instances ==> Created(old(world), world, n, old(world).instances[from], ok)
      ensures from !in old(world).instances ==>
          !ok && world.instances == old(world).instances && SameHost(old(world), world)
      ensures able && from in old(world).instances && n !in old(world).instances ==> ok
      ensures trace == old(trace) + [world]
    {
      if from in world.instances {
        ok := Create(n, world.instances[from]);
      } else {
        ok := false;
        Settle(world);
      }
    }

    method Delete(n: Name) returns (ok: bool)
      modifies this
      ensures OnlyTouches(old(world), world, n)
      ensures ok ==> n in old(world).instances && world.instances == old(world).instances - {n}
      ensures !ok ==> world.instances == old(world).instances || world.instances == old(world).instances - {n}
      ensures deletes ==> n !in world.instances && (n in old(world).instances ==> ok)
      ensures honest && !ok && n in old(world).instances ==> world.instances == old(world).instances
      ensures trace == old(trace) + [world]
    {
      var outcome := Outcome();
      if deletes {
        outcome := 0;
      }
      ok := outcome == 0 && n in world.instances;
      Settle(world.(instances := if outcome < 2 then world.instances - {n} else world.instances));
    }

    /** `rename`: refused for a running instance and when the target name is taken. */
    method Rename(n: Name, target: Name) returns (ok: bool, taken: bool)
      requires n != target
      modifies this
      ensures taken <==> target in old(world).instances
      ensures Renamed(old(world), world, n, target, ok)
      ensures honest && !ok ==> world.instances == old(world).instances
      ensures able && n in old(world).instances && !taken && old(world).instances[n].guest.Off? ==> ok
      ensures trace == old(trace) + [world]
    {
      var outcome := Outcome();
      var next := world.instances;
      ok, taken := false, target in world.instances;
      if n in world.instances && !taken && world.instances[n].guest.Off? && outcome < 2 {
        next := next[target := world.instances[n]] - {n};
        ok := outcome == 0;
      }
      Settle(world.(instances := next));
    }

    /** `network acl create`: an ACL that already exists is fine. */
    method CreateAcl() returns (ok: bool)
      modifies this
      ensures AclCreated(old(world), world, ok)
      ensures honest && !ok ==> world.acl == old(world).acl
      ensures able ==> ok
      ensures trace == old(trace) + [world]
    {
      var outcome := Outcome();
      ok := outcome == 0;
      Settle(world.(acl := if outcome < 2 && world.acl.None? then Some([]) else world.acl));
    }

    /** Replaces the ACL's rules. */
    method PutAcl(allow: seq<string>) returns (ok: bool)
      modifies this
      ensures RulesPut(old(world), world, allow, ok)
      ensures honest && !ok ==> world.acl == old(world).acl
      ensures able && old(world).acl.Some? ==> ok
      ensures trace == old(trace) + [world]
    {
      var outcome := Outcome();
      ok := outcome == 0 && world.acl.Some?;
      Settle(world.(acl := if outcome < 2 && world.acl.Some? then Some(allow) else world.acl));
    }

    /** Deletes the build ACL; Incus refuses while an instance names it. Already gone is fine. */
    method DeleteAcl() returns (ok: bool, refused: bool)
      modifies this
      ensures world == old(world).(acl := world.acl, now := world.now) && world.now >= old(world).now
      ensures ok ==> world.acl.None? && !refused
      ensures refused <==> old(world).acl.Some? && AclInUse(old(world))
      ensures world.acl == old(world).acl || world.acl.None?
      ensures old(world).acl.Some? && world.acl.None? ==> !AclInUse(old(world))
      ensures able && !refused ==> ok
      ensures honest && !ok ==> world.acl == old(world).acl
      ensures trace == old(trace) + [world]
    {
      var outcome := Outcome();
      var inUse := exists n :: n in world.instances && world.instances[n].acl;
      refused := world.acl.Some? && inUse;
      ok := world.acl.None? || (outcome == 0 && !inUse);
      Settle(world.(acl := if outcome < 2 && !inUse then None else world.acl));
    }

    /** Detaching tolerates an instance that is gone. */
    method DetachAcl(n: Name) returns (ok: bool)
      modifies this
      ensures n in old(world).instances ==> Applied(old(world), world, n, Detach, ok)
      ensures n !in old(world).instances ==>
          ok && world.instances == old(world).instances && SameHost(old(world), world)
      ensures able ==> ok
      ensures trace == old(trace) + [world]
    {
      if n in world.instances {
        ok := Apply(n, Detach);
      } else {
        ok := true;
        Settle(world);
      }
    }

    /** `publish --reuse`: the alias moves to the new image, which carries the build key. */
    method Publish(n: Name, alias: string, key: Key) returns (ok: bool)
      modifies this
      ensures world == old(world).(images := world.images, now := world.now) && world.now >= old(world).now
      ensures ok ==> Publishable(old(world), n) && world.images == Reused(old(world), n, alias, key)
      ensures !ok ==> || world.images == old(world).images
                      || (Publishable(old(world), n) && world.images == Reused(old(world), n, alias, key))
      ensures honest && !ok ==> world.images == old(world).images
      ensures able && Publishable(old(world), n) ==> ok
      ensures trace == old(trace) + [world]
    {
      var outcome := Outcome();
      var possible := Publishable(world, n);
      ok := outcome == 0 && possible;
      Settle(world.(images := if outcome < 2 && possible then Reused(world, n, alias, key) else world.images));
    }

    /** The new file replaces the old one as a whole, or not at all. */
    method SaveManifest(manifest: Manifest) returns (ok: bool)
      modifies this
      ensures world == old(world).(manifest := if ok then manifest else old(world).manifest, now := world.now)
      ensures world.now >= old(world).now
      ensures able ==> ok
      ensures trace == old(trace) + [world]
    {
      ok := Query();
      Settle(if ok then world.(manifest := manifest) else world);
    }
  }

  ghost predicate AclInUse(w: World) {
    exists n :: n in w.instances && w.instances[n].acl
  }

  predicate Publishable(w: World, n: Name) {
    n in w.instances && w.instances[n].guest.Off?
  }

  function Reused(w: World, n: Name, alias: string, key: Key): map<string, Image>
    requires Publishable(w, n)
  {
    w.images[alias := Image(Some(key), w.instances[n].content)]
  }
}
