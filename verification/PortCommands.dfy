/** The commands that publish and withdraw a project's ports, in the order in which they act on the
    registry and on the listeners. */
module PortCommands {

  import opened Prelude
  import opened HostPorts
  import opened PublishHelper

  /** A loaded configuration: `path` is its identity, from which the instance's name is derived. */
  datatype Project = Project(path: string, instance: string, ports: seq<Mapping>, enabled: bool) {
    /** What the parser guarantees. */
    ghost predicate Accepted() {
      ValidPorts(ports) && DistinctHosts(ports)
    }

    /** The tailnet ports, unless publishing is switched off. */
    function Requested(): (requested: seq<Mapping>)
      ensures forall m :: m in requested <==> enabled && m in ports && m.tailnet
    {
      PublishableMembers(ports, enabled);
      Publishable(ports, enabled)
    }
  }

  /** What a command meets: whether the helper is installed, what the owner answers, the addresses of
      guest and host if they have one, and how the privileged calls go: whether they are let through at
      all, whether the helper accepts its arguments, which sockets do not start, which units stop a
      removal, and whether systemd reloads after one. */
  datatype Setting = Setting(
    helper: bool, prompt: bool, answers: string -> bool, guest: Option<string>, address: Option<string>,
    calls: bool, ready: bool, refused: set<Unit>, stops: set<Unit>, reloads: bool)

  datatype Outcome =
    | Published     // every approved port is owned and served
    | Incomplete    // every approved port is owned and has its units; a socket did not start
    | Released      // no listener and no port is left
    | Stopped       // no listener is left, the ports stay reserved
    | NoHelper      // the helper is not installed
    | Refused       // another project owns a wanted port
    | ClearFailed   // some listeners are left, the ports stay reserved
    | ClaimedOnly   // the ports are those approved, the listeners those of before
    | ReleasedOnly  // no port is left, some listeners may be
  {
    /** The listeners agree with the registry again, whatever was before. */
    predicate Settles() {
      Published? || Incomplete? || Released? || Stopped?
    }

    predicate MayStray() {
      ClaimedOnly? || ReleasedOnly?
    }
  }

  /** Every unit of the instance is on a port that the project owns. */
  ghost predicate Sound(ports: map<int, Owner>, units: Units, path: string, instance: string) {
    forall u :: u in units && u.instance == instance ==> u.port in ports && ports[u.port].project == path
  }

  ghost predicate Deserted(units: Units, instance: string) {
    forall u :: u in units ==> u.instance != instance
  }

  /** The system will not start one of these sockets. */
  ghost predicate SomeRefused(instance: string, mappings: seq<Mapping>, refused: set<Unit>) {
    exists i :: 0 <= i < |mappings| && UnitFor(instance, mappings[i]) in refused
  }

  /** The helper is installed and called, and nothing cuts its run for the instance short. */
  ghost predicate Sweeps(units: Units, instance: string, at: Setting) {
    at.helper && at.calls && NoStop(instance, at.stops, units)
  }

  /** And it reports success. */
  ghost predicate Unhindered(units: Units, instance: string, at: Setting) {
    Sweeps(units, instance, at) && (at.reloads || NoneGlobbed(instance, units))
  }

  /** No instance with units has a name that goes on from this one with a dash. */
  ghost predicate NoNeighbour(units: Units, instance: string) {
    forall u :: u in units && Globbed(instance, u) ==> u.instance == instance
  }

  /** Units appear for no other instance. */
  ghost predicate OnlyFor(instance: string, before: Units, after: Units) {
    forall u :: u in after && u.instance != instance ==> u in before
  }

  ghost predicate Shrunk(before: Units, after: Units) {
    forall u :: u in after ==> SameAt(u, before, after)
  }

  /** Every mapping has its unit, with these addresses, and the instance has no other. */
  ghost predicate Serves(units: Units, instance: string, listen: string, guest: string, mappings: seq<Mapping>) {
    && (forall u :: u in units && u.instance == instance ==> Wants(mappings, u.port))
    && HasFiles(units, instance, listen, guest, mappings)
  }

  /** What every command guarantees to the other projects. */
  ghost predicate Civil(
      path: string, instance: string, ports: map<int, Owner>, portsAfter: map<int, Owner>, units: Units, after: Units)
  {
    && OthersKept(path, ports, portsAfter)
    && OnlyFor(instance, units, after)
    && SameOutside(instance, units, after)
  }

  /** No command makes another project's listeners stray. */
  lemma BystanderStaysSound(
      path: string, instance: string, other: string, otherInstance: string,
      ports: map<int, Owner>, portsAfter: map<int, Owner>, units: Units, after: Units)
    requires Civil(path, instance, ports, portsAfter, units, after)
    requires path != other && instance != otherInstance
    requires Sound(ports, units, other, otherInstance)
    ensures Sound(portsAfter, after, other, otherInstance)
  {
  }

  /** Nor does it touch them, unless the other instance's name goes on with a dash. */
  lemma BystanderUntouched(
      path: string, instance: string, u: Unit,
      ports: map<int, Owner>, portsAfter: map<int, Owner>, units: Units, after: Units)
    requires Civil(path, instance, ports, portsAfter, units, after)
    requires u.port >= 0 && u.instance != instance && !Extends(u.instance, instance)
    ensures SameAt(u, units, after)
  {
    GlobbedExactly(instance, u);
  }

  /** After a claim whose listeners were not brought in line: nothing is stray exactly when no unit
      was on a port that is no longer approved. */
  lemma ClaimedSoundExact(
      ports: map<int, Owner>, units: Units, path: string, instance: string, mappings: seq<Mapping>)
    requires OwnsExactly(ports, path, instance, mappings)
    ensures Sound(ports, units, path, instance) <==>
              forall u :: u in units && u.instance == instance ==> Wants(mappings, u.port)
  {
    forall u | u in units && u.instance == instance && Wants(mappings, u.port)
      ensures u.port in ports && ports[u.port].project == path
    {
      var i :| 0 <= i < |mappings| && mappings[i].host == u.port;
    }
  }

  /** After a release: exactly when the instance has no unit left. */
  lemma ReleasedSoundExact(ports: map<int, Owner>, units: Units, path: string, instance: string)
    requires forall h :: h in ports ==> ports[h].project != path
    ensures Sound(ports, units, path, instance) <==> Deserted(units, instance)
  {
  }

  datatype Verb = Up | Down | Destroy | Unpublish

  datatype Command = Command(verb: Verb, project: Project, at: Setting)

  /** The projects whose last command that mattered may have left listeners on ports they no longer
      own. */
  function Strays(commands: seq<Command>, outcomes: seq<Outcome>): set<string>
    requires |commands| == |outcomes|
  {
    if commands == [] then {}
    else
      var last, path := outcomes[|outcomes| - 1], commands[|commands| - 1].project.path;
      var before := Strays(commands[..|commands| - 1], outcomes[..|outcomes| - 1]);
      if last.MayStray() then before + {path} else if last.Settles() then before - {path} else before
  }

  /** A removal goes through, whatever there is to remove. */
  predicate CanWithdraw(at: Setting) {
    at.helper && at.calls && at.reloads && at.stops == {}
  }

  /** The helper gets as far as writing the units. */
  predicate CanServe(at: Setting) {
    at.calls && at.ready && at.guest.Some? && at.address.Some?
  }

  /** The command may release ports, or change them, without withdrawing the listeners. */
  predicate MayAbandon(c: Command) {
    match c.verb
    case Up => if c.project.Requested() == [] then !c.at.helper else c.at.helper && !CanServe(c.at)
    case Destroy => !CanWithdraw(c.at)
    case Down => false
    case Unpublish => false
  }

  /** The command brings the listeners in line with the registry, whatever was before. */
  predicate MustSettle(c: Command) {
    CanWithdraw(c.at) && (c.verb.Up? ==> c.project.Requested() == [])
  }

  /** The projects whose last command that mattered met a setting in which it may abandon listeners. */
  function Troubled(commands: seq<Command>): set<string> {
    if commands == [] then {}
    else
      var last := commands[|commands| - 1];
      var before := Troubled(commands[..|commands| - 1]);
      if MayAbandon(last) then before + {last.project.path}
      else if MustSettle(last) then before - {last.project.path} else before
  }

  /** What a command's setting alone says of its outcome. */
  predicate Expected(c: Command, outcome: Outcome) {
    && (outcome.MayStray() ==> MayAbandon(c))
    && (MustSettle(c) ==> outcome.Settles())
  }

  /** Nobody is stray but after a command that may have abandoned its listeners. */
  lemma {:induction false} StraysAreTroubled(commands: seq<Command>, outcomes: seq<Outcome>)
    requires |commands| == |outcomes|
    requires forall i :: 0 <= i < |commands| ==> Expected(commands[i], outcomes[i])
    ensures Strays(commands, outcomes) <= Troubled(commands)
  {
    if commands != [] {
      var n := |commands| - 1;
      StraysAreTroubled(commands[..n], outcomes[..n]);
      assert Expected(commands[n], outcomes[n]);
    }
  }

  lemma AllSoundBut(ports: map<int, Owner>, units: Units, naming: map<string, string>, some: set<string>,
                    more: set<string>)
    requires AllSound(ports, units, naming, some) && some <= more
    ensures AllSound(ports, units, naming, more)
  {
  }

  ghost predicate AllSound(ports: map<int, Owner>, units: Units, naming: map<string, string>, strays: set<string>) {
    forall path :: path in naming && path !in strays ==> Sound(ports, units, path, naming[path])
  }

  /** The unit of a known project that is not among the strays. */
  ghost predicate Tame(u: Unit, naming: map<string, string>, strays: set<string>) {
    exists path :: path in naming && path !in strays && naming[path] == u.instance
  }

  ghost predicate OneListenerEach(units: Units, naming: map<string, string>, strays: set<string>) {
    forall u, v | u in units && v in units && Tame(u, naming, strays) && Tame(v, naming, strays) ::
      u.port == v.port ==> u == v
  }

  /** A host port has one listener, whoever published it. */
  lemma OneListenerPerPort(ports: map<int, Owner>, units: Units, naming: map<string, string>, strays: set<string>)
    requires AllSound(ports, units, naming, strays)
    ensures OneListenerEach(units, naming, strays)
  {
    forall u, v | u in units && v in units && Tame(u, naming, strays) && Tame(v, naming, strays) && u.port == v.port
      ensures u == v
    {
      var p :| p in naming && p !in strays && naming[p] == u.instance;
      var q :| q in naming && q !in strays && naming[q] == v.instance;
      assert Sound(ports, units, p, naming[p]) && Sound(ports, units, q, naming[q]);
    }
  }

  /** Distinct projects have distinct instances. */
  ghost predicate Injective(naming: map<string, string>) {
    forall p, q :: p in naming && q in naming && p != q ==> naming[p] != naming[q]
  }

  /** What one command does to the soundness of every project. */
  lemma CommandKeepsSound(
      outcome: Outcome, path: string, naming: map<string, string>, strays: set<string>,
      ports: map<int, Owner>, portsAfter: map<int, Owner>, units: Units, after: Units)
    requires path in naming && Injective(naming)
    requires Civil(path, naming[path], ports, portsAfter, units, after)
    requires AllSound(ports, units, naming, strays)
    requires outcome.Settles() ==> Sound(portsAfter, after, path, naming[path])
    requires !outcome.Settles() && !outcome.MayStray() ==>
               (Sound(ports, units, path, naming[path]) ==> Sound(portsAfter, after, path, naming[path]))
    ensures AllSound(portsAfter, after, naming,
              if outcome.MayStray() then strays + {path} else if outcome.Settles() then strays - {path} else strays)
  {
    hide Civil, Sound;
    forall other | other in naming && other != path && other !in strays
      ensures Sound(portsAfter, after, other, naming[other])
    {
      BystanderStaysSound(path, naming[path], other, naming[other], ports, portsAfter, units, after);
    }
  }

  /** How `_publish` ends, by what it asks in turn. */
  ghost function UpOutcome(
      project: Project, approved: seq<Mapping>, ports: map<int, Owner>, units: Units, at: Setting): Outcome
  {
    if project.Requested() == [] || (at.helper && approved == []) then
      if !at.helper then ReleasedOnly else if Unhindered(units, project.instance, at) then Released else ClearFailed
    else if !at.helper then NoHelper
    else if !Claimable(ports, project.path, approved) then Refused
    else if !CanServe(at) then ClaimedOnly
    else if SomeRefused(project.instance, approved, at.refused) then Incomplete
    else Published
  }

  class Host {
    const registry: Registry
    const helper: Helper

    constructor (registry: Registry, helper: Helper)
      ensures this.registry == registry && this.helper == helper
    {
      this.registry, this.helper := registry, helper;
    }

    /** `Publisher.clear`: without the helper there is nothing it could do. */
    method ClearUnits(project: Project, at: Setting) returns (cleared: bool)
      requires helper.Valid()
      modifies helper
      ensures helper.Valid()
      ensures SameOutside(project.instance, old(helper.units), helper.units)
      ensures Shrunk(old(helper.units), helper.units)
      ensures cleared <==> !at.helper || Unhindered(old(helper.units), project.instance, at)
      ensures !at.helper || !at.calls ==> helper.units == old(helper.units)
      ensures Sweeps(old(helper.units), project.instance, at) ==> NoneGlobbed(project.instance, helper.units)
      ensures forall u :: u in old(helper.units) && u in at.stops ==> u in helper.units
    {
      if !at.helper {
        return true;
      }
      if !at.calls {
        return false;
      }
      cleared := helper.Clear(project.instance, at.stops, at.reloads);
    }

    method Withdraw(project: Project, at: Setting) returns (outcome: Outcome)
      requires helper.Valid()
      modifies helper, registry
      ensures helper.Valid()
      ensures Civil(project.path, project.instance, old(registry.ports), registry.ports,
                    old(helper.units), helper.units)
      ensures Shrunk(old(helper.units), helper.units)
      ensures outcome == if !at.helper then ReleasedOnly
                         else if Unhindered(old(helper.units), project.instance, at) then Released
                         else ClearFailed
      ensures outcome.ClearFailed? ==> registry.ports == old(registry.ports)
      ensures !outcome.ClearFailed? ==> forall h :: h in registry.ports ==> registry.ports[h].project != project.path
      ensures outcome.Released? ==> Deserted(helper.units, project.instance)
      ensures outcome.ReleasedOnly? ==> !at.helper && helper.units == old(helper.units)
    {
      var cleared := ClearUnits(project, at);
      if !cleared {
        return ClearFailed;
      }
      registry.Release(project.path);
      if !at.helper {
        return ReleasedOnly;
      }
      DesertedIfCleared(project.instance);
      return Released;
    }

    lemma DesertedIfCleared(instance: string)
      requires helper.Valid() && NoneGlobbed(instance, helper.units)
      ensures Deserted(helper.units, instance)
    {
      forall u | u in helper.units ensures u.instance != instance {
        GlobbedExactly(instance, u);
      }
    }

    lemma NoOtherUnit(instance: string, mappings: seq<Mapping>)
      requires helper.Valid()
      requires forall u :: u in helper.units && Globbed(instance, u) ==> IsWanted(instance, mappings, |mappings|, u)
      ensures forall u :: u in helper.units && u.instance == instance ==> Wants(mappings, u.port)
    {
      forall u | u in helper.units && u.instance == instance ensures Wants(mappings, u.port) {
        OwnUnitGlobbed(instance, u);
      }
    }

    /** `_publish`. The approved mappings are the requested ones that the owner allows. */
    method Publish(project: Project, ledger: Ledger, at: Setting)
      returns (outcome: Outcome, ghost approved: seq<Mapping>)
      requires helper.Valid() && project.Accepted()
      modifies helper, registry, ledger
      ensures helper.Valid()
      ensures Civil(project.path, project.instance, old(registry.ports), registry.ports,
                    old(helper.units), helper.units)
      ensures approved == Those(project.Requested(), old(ledger.recorded), at.prompt, at.answers, true)
      ensures forall m :: m in approved && at.helper ==> ApprovalKey(m) in ledger.recorded
      ensures outcome == UpOutcome(project, approved, old(registry.ports), old(helper.units), at)
      ensures outcome.NoHelper? || outcome.Refused? ==>
        registry.ports == old(registry.ports) && helper.units == old(helper.units)
      ensures outcome.ClearFailed? ==> registry.ports == old(registry.ports) && Shrunk(old(helper.units), helper.units)
      ensures outcome.Released? || outcome.ReleasedOnly? ==>
        forall h :: h in registry.ports ==> registry.ports[h].project != project.path
      ensures outcome.Released? ==> Deserted(helper.units, project.instance)
      ensures outcome.ReleasedOnly? ==> !at.helper && helper.units == old(helper.units)
      ensures outcome.ClaimedOnly? || outcome.Incomplete? || outcome.Published? ==>
        OwnsExactly(registry.ports, project.path, project.instance, approved)
      ensures outcome.ClaimedOnly? ==>
        helper.units == old(helper.units)
      ensures outcome.Incomplete? || outcome.Published? ==>
        && at.guest.Some? && at.address.Some?
        && Serves(helper.units, project.instance, at.address.value, at.guest.value, approved)
      ensures outcome.Published? ==> forall i :: 0 <= i < |approved| ==>
        IsServed(project.instance, at.address.value, at.guest.value, approved[i],
                 old(helper.starts), old(helper.units), helper.units)
    {
      hide Globbed, Claimable, OwnsExactly, IsServed, Those;
      var requested := project.Requested();
      PublishableOncePerHost(project.ports, project.enabled);
      PublishableMembers(project.ports, project.enabled);
      approved := Those(requested, ledger.recorded, at.prompt, at.answers, true);
      ThoseOncePerHost(requested, ledger.recorded, at.prompt, at.answers, true);
      ThoseMembers(requested, ledger.recorded, at.prompt, at.answers, true);
      if requested == [] {
        outcome := Withdraw(project, at);
        return;
      }
      if !at.helper {
        return NoHelper, approved;
      }
      var allowed, pending := ledger.Split(requested, at.prompt, at.answers);
      if allowed == [] {
        outcome := Withdraw(project, at);
        return;
      }
      var conflict := registry.Claim(project.path, project.instance, allowed);
      if conflict.Some? {
        return Refused, approved;
      }
      if at.guest.None? || at.address.None? {
        return ClaimedOnly, approved;
      }
      forall i | 0 <= i < |allowed| ensures ValidPort(allowed[i].host) && ValidPort(allowed[i].guest) {
        assert allowed[i] in allowed;
      }
      var result := helper.Sync(
        project.instance, at.address.value, at.guest.value, allowed, at.calls && at.ready, at.refused);
      if result.Stuck? || result.Synced? {
        NoOtherUnit(project.instance, allowed);
      }
      outcome := match result
        case NotRun => ClaimedOnly
        case Rejected => ClaimedOnly
        case Stuck => Incomplete
        case Synced => Published;
    }

    /** A run that was cut short has left a unit of the instance, if it had one. */
    lemma SomethingLeft(before: Units, after: Units, instance: string, at: Setting)
      requires NoNeighbour(before, instance) && !Sweeps(before, instance, at) && Shrunk(before, after)
      requires !at.helper || !at.calls ==> after == before
      requires forall u :: u in before && u in at.stops ==> u in after
      ensures Deserted(after, instance) <==> Deserted(before, instance)
    {
      if at.helper && at.calls {
        var u :| u in before && Globbed(instance, u) && u in at.stops;
        assert u in after && u.instance == instance;
      }
    }

    /** `_withdraw` swallows the error; the ports stay reserved. */
    method Down(project: Project, at: Setting) returns (outcome: Outcome)
      requires helper.Valid()
      modifies helper
      ensures helper.Valid()
      ensures Civil(project.path, project.instance, registry.ports, registry.ports, old(helper.units), helper.units)
      ensures Shrunk(old(helper.units), helper.units)
      ensures outcome == if !at.helper then NoHelper
                         else if Unhindered(old(helper.units), project.instance, at) then Stopped
                         else ClearFailed
      ensures outcome.Stopped? ==> Deserted(helper.units, project.instance)
      ensures outcome.NoHelper? ==> helper.units == old(helper.units)
    {
      var cleared := ClearUnits(project, at);
      if !at.helper {
        return NoHelper;
      }
      if !cleared {
        return ClearFailed;
      }
      DesertedIfCleared(project.instance);
      return Stopped;
    }

    /** Deleting the instance releases the ports whatever became of the listeners. None of them is
        stray afterwards exactly when the helper removed them all, or there was none. */
    method Destroy(project: Project, at: Setting) returns (outcome: Outcome)
      requires helper.Valid()
      modifies helper, registry
      ensures helper.Valid()
      ensures Civil(project.path, project.instance, old(registry.ports), registry.ports,
                    old(helper.units), helper.units)
      ensures Shrunk(old(helper.units), helper.units)
      ensures forall h :: h in registry.ports ==> registry.ports[h].project != project.path
      ensures outcome == if Unhindered(old(helper.units), project.instance, at) then Released else ReleasedOnly
      ensures outcome.Released? ==> Deserted(helper.units, project.instance)
      ensures !at.helper || !at.calls ==> helper.units == old(helper.units)
      ensures forall u :: u in old(helper.units) && u in at.stops ==> u in helper.units
      ensures NoNeighbour(old(helper.units), project.instance) ==>
                (Sound(registry.ports, helper.units, project.path, project.instance)
                 <==> || Sweeps(old(helper.units), project.instance, at)
                      || Deserted(old(helper.units), project.instance))
    {
      ghost var units := helper.units;
      var cleared := ClearUnits(project, at);
      registry.Release(project.path);
      ReleasedSoundExact(registry.ports, helper.units, project.path, project.instance);
      if Sweeps(units, project.instance, at) {
        DesertedIfCleared(project.instance);
      } else if NoNeighbour(units, project.instance) {
        SomethingLeft(units, helper.units, project.instance, at);
      }
      outcome := if at.helper && cleared then Released else ReleasedOnly;
    }

    method Unpublish(project: Project, at: Setting) returns (outcome: Outcome)
      requires helper.Valid()
      modifies helper, registry
      ensures helper.Valid()
      ensures Civil(project.path, project.instance, old(registry.ports), registry.ports,
                    old(helper.units), helper.units)
      ensures Shrunk(old(helper.units), helper.units)
      ensures outcome == if !at.helper then NoHelper
                         else if Unhindered(old(helper.units), project.instance, at) then Released
                         else ClearFailed
      ensures outcome.NoHelper? || outcome.ClearFailed? ==> registry.ports == old(registry.ports)
      ensures outcome.Released? ==>
        && Deserted(helper.units, project.instance)
        && forall h :: h in registry.ports ==> registry.ports[h].project != project.path
    {
      if !at.helper {
        return NoHelper;
      }
      outcome := Withdraw(project, at);
    }

    /** One command, and what it means for the project's own listeners. */
    method Do(command: Command, ledger: Ledger) returns (outcome: Outcome)
      requires helper.Valid() && command.project.Accepted()
      modifies helper, registry, ledger
      ensures helper.Valid()
      ensures var p := command.project;
        && Civil(p.path, p.instance, old(registry.ports), registry.ports, old(helper.units), helper.units)
        && (outcome.Settles() ==> Sound(registry.ports, helper.units, p.path, p.instance))
        && (!outcome.Settles() && !outcome.MayStray() ==>
              (Sound(old(registry.ports), old(helper.units), p.path, p.instance) ==>
                 Sound(registry.ports, helper.units, p.path, p.instance)))
      ensures Expected(command, outcome)
      ensures var p, at := command.project, command.at;
        match command.verb
        case Up =>
          var approved := Those(p.Requested(), old(ledger.recorded), at.prompt, at.answers, true);
          && outcome == UpOutcome(p, approved, old(registry.ports), old(helper.units), at)
          && (outcome.Published? || outcome.Incomplete? ==>
                && OwnsExactly(registry.ports, p.path, p.instance, approved)
                && Serves(helper.units, p.instance, at.address.value, at.guest.value, approved))
        case Down =>
          && registry.ports == old(registry.ports)
          && (outcome.Stopped? <==> Unhindered(old(helper.units), p.instance, at))
        case Destroy =>
          && (forall h :: h in registry.ports ==> registry.ports[h].project != p.path)
          && (outcome.Released? <==> Unhindered(old(helper.units), p.instance, at))
        case Unpublish =>
          && (outcome.Released? <==> Unhindered(old(helper.units), p.instance, at))
          && if outcome.Released? then forall h :: h in registry.ports ==> registry.ports[h].project != p.path
             else registry.ports == old(registry.ports)
    {
      hide Civil;
      match command.verb {
        case Up =>
          ghost var approved;
          outcome, approved := Publish(command.project, ledger, command.at);
          if outcome.Published? || outcome.Incomplete? {
            ClaimedSoundExact(registry.ports, helper.units, command.project.path, command.project.instance, approved);
          }
        case Down =>
          outcome := Down(command.project, command.at);
        case Destroy =>
          outcome := Destroy(command.project, command.at);
        case Unpublish =>
          outcome := Unpublish(command.project, command.at);
      }
    }

    /** Any commands of any projects, each meeting any setting. */
    method Lifetime(commands: seq<Command>, naming: map<string, string>, ledgers: map<string, Ledger>)
      returns (outcomes: seq<Outcome>)
      requires helper.Valid() && Injective(naming)
      requires forall c :: c in commands ==>
        && c.project.Accepted() && c.project.path in ledgers
        && c.project.path in naming && naming[c.project.path] == c.project.instance
      requires AllSound(registry.ports, helper.units, naming, {})
      modifies helper, registry, ledgers.Values
      ensures helper.Valid() && |outcomes| == |commands|
      ensures AllSound(registry.ports, helper.units, naming, Strays(commands, outcomes))
      ensures OneListenerEach(helper.units, naming, Strays(commands, outcomes))
      ensures Strays(commands, outcomes) <= Troubled(commands)
      ensures AllSound(registry.ports, helper.units, naming, Troubled(commands))
      ensures OneListenerEach(helper.units, naming, Troubled(commands))
    {
      hide Expected, UpOutcome, Serves, OwnsExactly, Unhindered, Those, Civil, Sound;
      outcomes := [];
      for i := 0 to |commands|
        invariant helper.Valid() && |outcomes| == i
        invariant AllSound(registry.ports, helper.units, naming, Strays(commands[..i], outcomes))
        invariant forall j :: 0 <= j < i ==> Expected(commands[j], outcomes[j])
      {
        var command := commands[i];
        ghost var ports, units := registry.ports, helper.units;
        var outcome := Do(command, ledgers[command.project.path]);
        CommandKeepsSound(outcome, command.project.path, naming, Strays(commands[..i], outcomes),
                          ports, registry.ports, units, helper.units);
        assert commands[..i + 1][..i] == commands[..i] && (outcomes + [outcome])[..i] == outcomes;
        outcomes := outcomes + [outcome];
      }
      assert commands[..|commands|] == commands;
      var troubled := Troubled(commands);
      StraysAreTroubled(commands, outcomes);
      AllSoundBut(registry.ports, helper.units, naming, Strays(commands, outcomes), troubled);
      OneListenerPerPort(registry.ports, helper.units, naming, Strays(commands, outcomes));
      OneListenerPerPort(registry.ports, helper.units, naming, troubled);
    }
  }

  ghost predicate HasListener(units: Units, u: Unit) {
    u in units && units[u].listener.Some?
  }

  /** The helper does its work, and the owner says yes. */
  ghost predicate AllGoesWell(at: Setting) {
    && at.helper && at.prompt && (forall key :: at.answers(key))
    && CanServe(at)
  }

  /** Then every published port of the configuration that nobody else owns becomes the project's, and
      gets its listener unless the system refuses a socket. */
  method PublishAll(host: Host, project: Project, ledger: Ledger, at: Setting)
    requires host.helper.Valid() && project.Accepted() && project.enabled && AllGoesWell(at)
    requires exists m :: m in project.ports && m.tailnet
    requires forall m :: m in project.ports && m.host in host.registry.ports ==>
               host.registry.ports[m.host].project == project.path
    modifies host.helper, host.registry, ledger
    ensures host.helper.Valid()
    ensures SameOutside(project.instance, old(host.helper.units), host.helper.units)
    ensures OthersKept(project.path, old(host.registry.ports), host.registry.ports)
    ensures forall m :: m in project.ports && m.tailnet ==>
              && m.host in host.registry.ports && host.registry.ports[m.host].project == project.path
              && (at.refused == {} ==> HasListener(host.helper.units, Unit(project.instance, m.host)))
  {
    hide Globbed, Those, Publishable;
    PublishableMembers(project.ports, project.enabled);
    ThoseMembers(project.Requested(), ledger.recorded, at.prompt, at.answers, true);
    var outcome, approved := host.Publish(project, ledger, at);
    assert outcome.Published? || outcome.Incomplete?;
    forall m | m in project.ports && m.tailnet
      ensures m.host in host.registry.ports && host.registry.ports[m.host].project == project.path
      ensures at.refused == {} ==> HasListener(host.helper.units, Unit(project.instance, m.host))
    {
      assert m in approved;
      var i :| 0 <= i < |approved| && approved[i] == m;
    }
  }

  /** A project drops a port while its guest has no address: the port is free for another project to
      claim, but the old listener is still there and still leads to the first project. */
  method DroppedPortKeepsOldListener() returns (host: Host, u: Unit)
    ensures fresh(host.helper) && fresh(host.registry) && host.helper.Valid()
    ensures HasListener(host.helper.units, u) && u.instance == "ss-a"
    ensures u.port in host.registry.ports && host.registry.ports[u.port].project == "/b"
  {
    hide Those, Publishable;
    var registry := new Registry();
    var helper := new Helper();
    host := new Host(registry, helper);
    var mine := new Ledger();
    var other := new Ledger();
    var kept, dropped := Mapping(80, 8080, true), Mapping(81, 8081, true);
    var yes := Setting(true, true, key => true, Some("10.0.0.2"), Some("100.64.0.1"), true, true, {}, {}, true);
    var first, edited := Project("/a", "ss-a", [kept, dropped], true), Project("/a", "ss-a", [kept], true);
    var second := Project("/b", "ss-b", [dropped], true);
    u := Unit("ss-a", 8081);
    // the address is in use, so the system refuses the second socket
    var busy := yes.(refused := {Unit("ss-b", 8081)});
    assert dropped in first.ports && kept in edited.ports && dropped in second.ports;

    PublishAll(host, first, mine, yes);
    assert forall h :: h in registry.ports ==> registry.ports[h].project == first.path;
    DropWhileAsleep(host, edited, mine, yes);
    assert forall m :: m in edited.ports ==> m == kept;
    assert 8081 !in registry.ports;
    assert forall m :: m in second.ports ==> m == dropped;
    BystanderGlob(u, second.instance);
    PublishAll(host, second, other, busy);
  }

  method DropWhileAsleep(host: Host, project: Project, ledger: Ledger, at: Setting)
    requires host.helper.Valid() && project.Accepted() && project.enabled && AllGoesWell(at)
    requires exists m :: m in project.ports && m.tailnet
    requires forall m :: m in project.ports && m.host in host.registry.ports ==>
               host.registry.ports[m.host].project == project.path
    modifies host.helper, host.registry, ledger
    ensures host.helper.Valid() && host.helper.units == old(host.helper.units)
    ensures OthersKept(project.path, old(host.registry.ports), host.registry.ports)
    ensures forall h :: h in host.registry.ports && host.registry.ports[h].project == project.path ==>
              exists m :: m in project.ports && m.host == h
  {
    hide Globbed, Those, Publishable;
    PublishableMembers(project.ports, project.enabled);
    ThoseMembers(project.Requested(), ledger.recorded, at.prompt, at.answers, true);
    var outcome, approved := host.Publish(project, ledger, at.(guest := None));
    assert outcome.ClaimedOnly?;
    forall h | h in host.registry.ports && host.registry.ports[h].project == project.path
      ensures exists m :: m in project.ports && m.host == h
    {
      var i :| 0 <= i < |approved| && approved[i].host == h;
      assert approved[i] in approved;
    }
  }

  lemma BystanderGlob(u: Unit, instance: string)
    requires u.port >= 0 && u.instance == "ss-a" && instance == "ss-b"
    ensures !Globbed(instance, u)
  {
    GlobbedExactly(instance, u);
  }

  /** A destroyed project whose listener could not be withdrawn: it still listens, on a port that
      nobody owns. */
  method DestroyLeavesOrphan() returns (host: Host, u: Unit)
    ensures fresh(host.helper) && fresh(host.registry) && host.helper.Valid()
    ensures HasListener(host.helper.units, u) && u.port !in host.registry.ports
  {
    hide Those, Publishable;
    var registry := new Registry();
    var helper := new Helper();
    host := new Host(registry, helper);
    var ledger := new Ledger();
    var mapping := Mapping(80, 8080, true);
    var project := Project("/a", "ss-a", [mapping], true);
    var yes := Setting(true, true, key => true, Some("10.0.0.2"), Some("100.64.0.1"), true, true, {}, {}, true);
    u := Unit("ss-a", 8080);
    assert mapping in project.ports;
    PublishAll(host, project, ledger, yes);
    assert forall h :: h in registry.ports ==> registry.ports[h].project == project.path;
    var outcome := host.Destroy(project, yes.(stops := {u}));
    assert SameAt(u, helper.units, helper.units);
  }
}
