/** The privileged helper that `install.sh` writes: one socket unit and one proxy service for each
    published port, listed by a file-name glob. */
module PublishHelper {

  import opened Framing
  import opened HostPorts
  import opened Prelude

  datatype Unit = Unit(instance: string, port: int)

  datatype Socket = Socket(listen: string, port: int)

  datatype Service = Service(guest: string, port: int)

  /** A running unit: the file it was started from, and which start it was. */
  datatype Running<T> = Running(file: T, start: nat)

  /** The two unit files of a published port, which are written and removed together, and what of
      them is running. */
  datatype Entry = Entry(
    socket: Socket, service: Service, listener: Option<Running<Socket>>, proxy: Option<Running<Service>>)
  {
    /** What runs, runs from its present file. */
    predicate Current() {
      (listener.Some? ==> listener.value.file == socket) && (proxy.Some? ==> proxy.value.file == service)
    }
  }

  type Units = map<Unit, Entry>

  // ---- names and the glob -------------------------------------------------------------

  const DASH := '-'

  function BaseName(u: Unit): string {
    "sandboxsh-publish-" + u.instance + [DASH] + Decimal(u.port)
  }

  /** `"$UNIT_DIR/$PREFIX-$1-"*.socket` */
  predicate Globbed(instance: string, u: Unit) {
    "sandboxsh-publish-" + instance + [DASH] <= BaseName(u)
  }

  predicate Extends(longer: string, shorter: string) {
    shorter + [DASH] <= longer
  }

  /** The glob of an instance matches its own units and those of every instance whose name goes on
      with a dash. */
  lemma GlobbedExactly(instance: string, u: Unit)
    requires u.port >= 0
    ensures Globbed(instance, u) <==> u.instance == instance || Extends(u.instance, instance)
  {
    var prefix := "sandboxsh-publish-";
    var rest := u.instance + [DASH] + Decimal(u.port);
    assert BaseName(u) == prefix + rest;
    forall k | |u.instance| < k < |rest| ensures rest[k] != DASH {
      assert rest[k] in Decimal(u.port);
    }
    var wanted := instance + [DASH];
    assert prefix + instance + [DASH] == prefix + wanted;
    assert Globbed(instance, u) <==> wanted <= rest by {
      if wanted <= rest {
        assert BaseName(u)[..|prefix + wanted|] == prefix + wanted;
      }
      if Globbed(instance, u) {
        assert rest == BaseName(u)[|prefix|..];
        assert wanted == (prefix + wanted)[|prefix|..];
      }
    }
    if wanted <= rest {
      assert rest[|instance|] == DASH;
      assert rest[..|instance|] == instance;
      if |instance| == |u.instance| {
        assert u.instance == instance;
      } else {
        assert wanted == u.instance[..|wanted|];
      }
    }
    if u.instance == instance {
      assert rest[..|wanted|] == wanted;
    }
    if Extends(u.instance, instance) {
      assert rest[..|wanted|] == wanted;
    }
  }

  /** Two published ports never share a unit file. */
  lemma BaseNameInjective(u: Unit, v: Unit)
    requires u.port >= 0 && v.port >= 0 && BaseName(u) == BaseName(v)
    ensures u == v
  {
    GlobbedExactly(u.instance, u);
    GlobbedExactly(u.instance, v);
    GlobbedExactly(v.instance, v);
    GlobbedExactly(v.instance, u);
    var prefix := "sandboxsh-publish-" + u.instance + [DASH];
    assert Decimal(u.port) == BaseName(u)[|prefix|..];
    assert Decimal(v.port) == BaseName(v)[|prefix|..];
    DecimalRoundTrip(u.port);
    DecimalRoundTrip(v.port);
  }

  /** Clearing `ss-app` also finds the units of `ss-app-old`. */
  lemma NeighbourCaught()
    ensures Globbed("ss-app", Unit("ss-app-old", 8080)) && !Globbed("ss-app-old", Unit("ss-app", 8080))
    ensures BaseName(Unit("ss-app-old", 8080)) == "sandboxsh-publish-ss-app-old-8080"
  {
    assert Digits(80) == "80" && Digits(808) == "808" && Digits(8080) == "8080";
    GlobbedExactly("ss-app", Unit("ss-app-old", 8080));
    GlobbedExactly("ss-app-old", Unit("ss-app", 8080));
    assert "ss-app" + [DASH] == "ss-app-old"[..7];
  }

  // ---- what a run promises ------------------------------------------------------------

  predicate ValidPort(port: int) {
    1 <= port <= 65535
  }

  ghost predicate ValidPorts(mappings: seq<Mapping>) {
    forall i :: 0 <= i < |mappings| ==> ValidPort(mappings[i].host) && ValidPort(mappings[i].guest)
  }

  ghost predicate SameAt(u: Unit, before: Units, after: Units) {
    (u in before <==> u in after) && (u in before ==> before[u] == after[u])
  }

  ghost predicate SameOutside(instance: string, before: Units, after: Units) {
    forall u :: !Globbed(instance, u) ==> SameAt(u, before, after)
  }

  function UnitFor(instance: string, m: Mapping): Unit {
    Unit(instance, m.host)
  }

  /** The units of the first mappings. */
  ghost predicate IsWanted(instance: string, mappings: seq<Mapping>, n: nat, u: Unit)
    requires n <= |mappings|
  {
    exists i :: 0 <= i < n && u == UnitFor(instance, mappings[i])
  }

  lemma WantedGrows(instance: string, mappings: seq<Mapping>, n: nat)
    requires n < |mappings|
    ensures forall u :: IsWanted(instance, mappings, n + 1, u) <==>
                        IsWanted(instance, mappings, n, u) || u == UnitFor(instance, mappings[n])
  {
    forall u ensures IsWanted(instance, mappings, n + 1, u) <==>
                     IsWanted(instance, mappings, n, u) || u == UnitFor(instance, mappings[n])
    {
      if IsWanted(instance, mappings, n, u) {
        var i :| 0 <= i < n && u == UnitFor(instance, mappings[i]);
        assert 0 <= i < n + 1;
      }
    }
  }

  function SocketFor(listen: string, m: Mapping): Socket {
    Socket(listen, m.host)
  }

  function ServiceFor(guest: string, m: Mapping): Service {
    Service(guest, m.guest)
  }

  /** Every mapping has its unit, named after the instance and the host port; its socket listens on that
      port, and its service leads to the guest port. */
  ghost predicate HasFiles(units: Units, instance: string, listen: string, guest: string, mappings: seq<Mapping>) {
    forall i :: 0 <= i < |mappings| ==>
      var u := Unit(instance, mappings[i].host);
      && u in units
      && units[u].socket == Socket(listen, mappings[i].host)
      && units[u].service == Service(guest, mappings[i].guest)
  }

  lemma FilesAre(units: Units, instance: string, listen: string, guest: string, mappings: seq<Mapping>)
    requires forall i :: 0 <= i < |mappings| ==>
               && HasSocket(units, UnitFor(instance, mappings[i]), SocketFor(listen, mappings[i]))
               && HasService(units, UnitFor(instance, mappings[i]), ServiceFor(guest, mappings[i]))
    ensures HasFiles(units, instance, listen, guest, mappings)
  {
  }

  ghost predicate SomePortInvalid(mappings: seq<Mapping>) {
    exists i :: 0 <= i < |mappings| && !(1 <= mappings[i].host <= 65535 && 1 <= mappings[i].guest <= 65535)
  }

  lemma PortsInvalid(mappings: seq<Mapping>)
    ensures SomePortInvalid(mappings) <==> !ValidPorts(mappings)
  {
  }

  /** The first mapping with a port out of range. */
  ghost predicate FirstInvalid(mappings: seq<Mapping>, n: nat)
    requires n < |mappings|
  {
    ValidPorts(mappings[..n]) && !(ValidPort(mappings[n].host) && ValidPort(mappings[n].guest))
  }

  predicate HasSocket(units: Units, u: Unit, socket: Socket) {
    u in units && units[u].socket == socket
  }

  predicate HasService(units: Units, u: Unit, service: Service) {
    u in units && units[u].service == service
  }

  /** The unit with both files replaced and nothing yet restarted. */
  function Written(before: Units, u: Unit, socket: Socket, service: Service): Entry {
    if u in before then before[u].(socket := socket, service := service)
    else Entry(socket, service, None, None)
  }

  /** The unit after a whole run: a listener whose file did not change is left alone if it is up, and
      started if not; any other is started anew, which takes its proxy down. A proxy whose file
      changed is stopped; the next connection starts it again. */
  function Served(before: Units, u: Unit, socket: Socket, service: Service, start: nat): Entry {
    var same := HasSocket(before, u, socket);
    Entry(socket, service,
          if same && before[u].listener.Some? then before[u].listener else Some(Running(socket, start)),
          if same && HasService(before, u, service) then before[u].proxy else None)
  }

  /** The first mappings have their files, everything else is untouched. */
  ghost predicate InstalledUpTo(
      instance: string, listen: string, guest: string, mappings: seq<Mapping>, n: nat, before: Units, after: Units)
    requires n <= |mappings|
  {
    && (forall u :: !IsWanted(instance, mappings, n, u) ==> SameAt(u, before, after))
    && (forall i :: 0 <= i < n ==> HasWritten(instance, listen, guest, mappings[i], before, after))
  }

  ghost predicate HasWritten(
      instance: string, listen: string, guest: string, m: Mapping, before: Units, after: Units)
  {
    var u := UnitFor(instance, m);
    u in after && after[u] == Written(before, u, SocketFor(listen, m), ServiceFor(guest, m))
  }

  lemma InstallNone(instance: string, listen: string, guest: string, mappings: seq<Mapping>, units: Units)
    ensures InstalledUpTo(instance, listen, guest, mappings, 0, units, units)
  {
  }

  lemma InstallStep(
      instance: string, listen: string, guest: string, mappings: seq<Mapping>, n: nat, before: Units, units: Units)
    requires n < |mappings| && OncePerHost(mappings)
    requires InstalledUpTo(instance, listen, guest, mappings, n, before, units)
    ensures
      var m := mappings[n];
      var u := UnitFor(instance, m);
      && !IsWanted(instance, mappings, n, u)
      && SameAt(u, before, units)
      && InstalledUpTo(instance, listen, guest, mappings, n + 1, before,
                       units[u := Written(units, u, SocketFor(listen, m), ServiceFor(guest, m))])
  {
    var m := mappings[n];
    var u := UnitFor(instance, m);
    assert !IsWanted(instance, mappings, n, u);
    WantedGrows(instance, mappings, n);
    var after := units[u := Written(units, u, SocketFor(listen, m), ServiceFor(guest, m))];
    forall v | !IsWanted(instance, mappings, n + 1, v) ensures SameAt(v, before, after) {
      assert !IsWanted(instance, mappings, n, v);
      assert v != u;
    }
    forall i | 0 <= i < n + 1 ensures HasWritten(instance, listen, guest, mappings[i], before, after) {
      if i < n {
        assert HasWritten(instance, listen, guest, mappings[i], before, units);
      }
    }
  }

  /** `systemctl start`, which leaves a listening socket alone, or `restart`. */
  ghost predicate HasStarted(u: Unit, restart: bool, from: nat, before: Units, after: Units) {
    && u in before && u in after
    && var was, now := before[u], after[u];
       if !restart && was.listener.Some? then now == was
       else
         && now.listener.Some? && now.listener.value.file == was.socket && from <= now.listener.value.start
         && now == was.(listener := now.listener, proxy := if restart then None else was.proxy)
  }

  ghost predicate StartedUpTo(
      instance: string, mappings: seq<Mapping>, n: nat, rebind: set<Unit>, from: nat, before: Units, after: Units)
    requires n <= |mappings|
  {
    && (forall u :: !IsWanted(instance, mappings, n, u) ==> SameAt(u, before, after))
    && (forall i :: 0 <= i < n ==>
          HasStarted(UnitFor(instance, mappings[i]), UnitFor(instance, mappings[i]) in rebind, from, before, after))
  }

  lemma StartNone(instance: string, mappings: seq<Mapping>, rebind: set<Unit>, from: nat, units: Units)
    ensures StartedUpTo(instance, mappings, 0, rebind, from, units, units)
  {
  }

  lemma StartedAll(instance: string, mappings: seq<Mapping>, rebind: set<Unit>, from: nat, before: Units, units: Units)
    requires StartedUpTo(instance, mappings, |mappings|, rebind, from, before, units)
    ensures forall u :: !IsWanted(instance, mappings, |mappings|, u) ==> SameAt(u, before, units)
  {
  }

  lemma StartedFiles(
      instance: string, mappings: seq<Mapping>, n: nat, rebind: set<Unit>, from: nat, before: Units, units: Units)
    requires n <= |mappings| && StartedUpTo(instance, mappings, n, rebind, from, before, units)
    ensures units.Keys == before.Keys
    ensures forall u :: u in units ==> units[u].socket == before[u].socket && units[u].service == before[u].service
  {
    forall u
      ensures u in units <==> u in before
      ensures u in units ==> units[u].socket == before[u].socket && units[u].service == before[u].service
    {
      if IsWanted(instance, mappings, n, u) {
        var i :| 0 <= i < n && u == UnitFor(instance, mappings[i]);
        assert HasStarted(UnitFor(instance, mappings[i]), u in rebind, from, before, units);
      } else {
        assert SameAt(u, before, units);
      }
    }
  }

  lemma StartStep(
      instance: string, mappings: seq<Mapping>, n: nat, rebind: set<Unit>, from: nat,
      before: Units, units: Units, after: Units)
    requires n < |mappings| && OncePerHost(mappings)
    requires StartedUpTo(instance, mappings, n, rebind, from, before, units)
    requires var u := UnitFor(instance, mappings[n]);
             && HasStarted(u, u in rebind, from, units, after)
             && forall v :: v != u ==> SameAt(v, units, after)
    ensures StartedUpTo(instance, mappings, n + 1, rebind, from, before, after)
  {
    var u := UnitFor(instance, mappings[n]);
    assert !IsWanted(instance, mappings, n, u);
    assert SameAt(u, before, units);
    WantedGrows(instance, mappings, n);
    forall v | !IsWanted(instance, mappings, n + 1, v) ensures SameAt(v, before, after) {
      assert !IsWanted(instance, mappings, n, v);
      assert v != u && SameAt(v, units, after);
    }
    forall i | 0 <= i < n + 1
      ensures HasStarted(UnitFor(instance, mappings[i]), UnitFor(instance, mappings[i]) in rebind, from, before, after)
    {
      assert i < n ==> SameAt(UnitFor(instance, mappings[i]), units, after);
    }
  }

  /** What a refused socket leaves: the later units are untouched. */
  lemma StoppedAt(
      instance: string, mappings: seq<Mapping>, n: nat, rebind: set<Unit>, from: nat,
      before: Units, units: Units, after: Units)
    requires n < |mappings| && OncePerHost(mappings)
    requires StartedUpTo(instance, mappings, n, rebind, from, before, units)
    requires var u := UnitFor(instance, mappings[n]);
             && u in units && u in after
             && after[u].socket == units[u].socket && after[u].service == units[u].service
             && forall v :: v != u ==> SameAt(v, units, after)
    ensures after.Keys == before.Keys
    ensures forall u :: u in after ==> after[u].socket == before[u].socket && after[u].service == before[u].service
    ensures forall u :: !IsWanted(instance, mappings, |mappings|, u) ==> SameAt(u, before, after)
    ensures forall i :: n < i < |mappings| ==> SameAt(UnitFor(instance, mappings[i]), before, after)
  {
    var stopped := UnitFor(instance, mappings[n]);
    StartedFiles(instance, mappings, n, rebind, from, before, units);
    forall u
      ensures u in after <==> u in units
      ensures u in after ==> after[u].socket == units[u].socket && after[u].service == units[u].service
    {
      assert u != stopped ==> SameAt(u, units, after);
    }
    forall u | !IsWanted(instance, mappings, |mappings|, u) ensures SameAt(u, before, after) {
      assert !IsWanted(instance, mappings, n, u) && u != stopped;
      assert SameAt(u, before, units) && SameAt(u, units, after);
    }
    forall i | n < i < |mappings| ensures SameAt(UnitFor(instance, mappings[i]), before, after) {
      assert !IsWanted(instance, mappings, n, UnitFor(instance, mappings[i]));
      assert SameAt(UnitFor(instance, mappings[i]), before, units)
          && SameAt(UnitFor(instance, mappings[i]), units, after);
    }
  }

  /** The unit of a mapping is listening and serving as a whole run leaves it. */
  ghost predicate IsServed(
      instance: string, listen: string, guest: string, m: Mapping, from: nat, before: Units, after: Units)
  {
    var u := UnitFor(instance, m);
    && u in after && after[u].listener.Some?
    && after[u] == Served(before, u, SocketFor(listen, m), ServiceFor(guest, m), after[u].listener.value.start)
    && (after[u].listener == (if u in before then before[u].listener else None)
         || from <= after[u].listener.value.start)
  }

  /** Publishing what is published already drops no connection. */
  lemma UnchangedIsUntouched(
      instance: string, listen: string, guest: string, m: Mapping, from: nat, before: Units, after: Units)
    requires IsServed(instance, listen, guest, m, from, before, after)
    ensures
      var u := UnitFor(instance, m);
      u in before && before[u].listener.Some? && before[u].listener.value.start < from ==>
        (after[u] == before[u] <==>
          HasSocket(before, u, SocketFor(listen, m)) && (HasService(before, u, ServiceFor(guest, m))))
  {
  }

  /** After a whole run a published port runs from its files, exactly when nothing that this run found
      unchanged was running from an older file. */
  lemma ServedCurrentExact(
      instance: string, listen: string, guest: string, m: Mapping, from: nat, before: Units, after: Units)
    requires IsServed(instance, listen, guest, m, from, before, after)
    ensures
      var u := UnitFor(instance, m);
      after[u].Current() <==>
        (HasSocket(before, u, SocketFor(listen, m)) ==>
           && (before[u].listener.Some? ==> before[u].listener.value.file == SocketFor(listen, m))
           && (HasService(before, u, ServiceFor(guest, m)) && before[u].proxy.Some? ==>
                 before[u].proxy.value.file == ServiceFor(guest, m)))
  {
  }

  lemma OwnUnitGlobbed(instance: string, u: Unit)
    requires u.port >= 0 && u.instance == instance
    ensures Globbed(instance, u)
  {
    GlobbedExactly(instance, u);
  }

  lemma WantedGlobbed(instance: string, mappings: seq<Mapping>, n: nat)
    requires n <= |mappings| && ValidPorts(mappings[..n])
    ensures forall u :: IsWanted(instance, mappings, n, u) ==> Globbed(instance, u)
  {
    forall u | IsWanted(instance, mappings, n, u) ensures Globbed(instance, u) {
      var i :| 0 <= i < n && u == UnitFor(instance, mappings[i]);
      assert mappings[..n][i] == mappings[i];
      OwnUnitGlobbed(instance, u);
    }
  }

  /** `NotRun`: the privileged call itself failed, or an argument was refused before anything was
      done. `Rejected`: a port was refused, after the units of the mappings before it were
      written. `Stuck`: a socket could not be enabled or started. */
  datatype SyncResult = NotRun | Rejected | Stuck | Synced

  /** None of these units cuts a run for the instance short. */
  ghost predicate NoStop(instance: string, stops: set<Unit>, units: Units) {
    forall u :: u in units && Globbed(instance, u) ==> u !in stops
  }

  ghost predicate NoneGlobbed(instance: string, units: Units) {
    forall u :: u in units ==> !Globbed(instance, u)
  }

  /** Only units of the glob go, each of them whole; all of them exactly if none of them stops the run,
      and those that do are still there. The run reports success exactly if, besides, there was nothing
      to remove or systemd could be told of the removal. */
  ghost predicate Cleared(
      instance: string, stops: set<Unit>, reloads: bool, before: Units, after: Units, done: bool)
  {
    && SameOutside(instance, before, after)
    && (forall u :: u in after ==> SameAt(u, before, after))
    && (NoneGlobbed(instance, after) <==> NoStop(instance, stops, before))
    && (done <==> NoStop(instance, stops, before) && (reloads || NoneGlobbed(instance, before)))
    && (forall u :: u in before && u in stops ==> u in after)
  }

  /** The units of the glob that are still to go, and those that are gone. */
  ghost predicate Clearing(instance: string, stops: set<Unit>, before: Units, todo: set<Unit>, gone: set<Unit>) {
    && todo !! gone && gone !! stops
    && forall u :: u in todo || u in gone <==> u in before && Globbed(instance, u)
  }

  lemma ClearStarts(instance: string, stops: set<Unit>, before: Units, todo: set<Unit>)
    requires todo == set u | u in before && Globbed(instance, u)
    ensures Clearing(instance, stops, before, todo, {})
  {
    hide Globbed;
  }

  lemma ClearStep(instance: string, stops: set<Unit>, before: Units, todo: set<Unit>, gone: set<Unit>, u: Unit)
    requires Clearing(instance, stops, before, todo, gone) && u in todo && u !in stops
    ensures Clearing(instance, stops, before, todo - {u}, gone + {u})
  {
    hide Globbed;
  }

  lemma ClearCut(instance: string, stops: set<Unit>, before: Units, todo: set<Unit>, gone: set<Unit>, u: Unit)
    requires Clearing(instance, stops, before, todo, gone) && u in todo && u in stops
    ensures forall reloads :: Cleared(instance, stops, reloads, before, before - gone, false)
  {
    hide Globbed;
    assert u in before - gone && Globbed(instance, u);
  }

  lemma ClearDone(instance: string, stops: set<Unit>, reloads: bool, before: Units, gone: set<Unit>)
    requires Clearing(instance, stops, before, {}, gone)
    ensures Cleared(instance, stops, reloads, before, before - gone, reloads || gone == {})
  {
    hide Globbed;
    assert gone == {} <==> NoneGlobbed(instance, before);
  }

  class Helper {
    var units: Units
    var starts: nat

    ghost predicate Valid()
      reads this
    {
      forall u :: u in units ==>
        && ValidPort(u.port)
        && units[u].socket.port == u.port
        && (units[u].listener.Some? ==> units[u].listener.value.start < starts)
    }

    ghost predicate Current()
      reads this
    {
      forall u :: u in units ==> units[u].Current()
    }

    constructor ()
      ensures Valid() && units == map[]
    {
      units, starts := map[], 0;
    }

    /** A connection arrives: the socket unit starts the proxy unless it runs already. */
    method Connect(u: Unit)
      requires Valid() && u in units
      modifies this
      ensures Valid()
      ensures units.Keys == old(units).Keys && forall v :: v in units && v != u ==> units[v] == old(units)[v]
      ensures units[u] == if old(units)[u].listener.Some? && old(units)[u].proxy.None?
                          then old(units)[u].(proxy := Some(Running(old(units)[u].service, starts)))
                          else old(units)[u]
      ensures old(units)[u].Current() ==> units[u].Current()
    {
      var entry := units[u];
      if entry.listener.Some? && entry.proxy.None? {
        units := units[u := entry.(proxy := Some(Running(entry.service, starts)))];
      }
    }

    /** The `clear` verb. `stops` says before which unit, if any, the run is cut short, and `reloads`
        whether systemd can be told of what was removed. */
    method Clear(instance: string, stops: set<Unit>, reloads: bool) returns (done: bool)
      requires Valid()
      modifies this
      ensures Valid()
      ensures Cleared(instance, stops, reloads, old(units), units, done)
    {
      hide Globbed, Cleared, Clearing;
      var todo := set u | u in units && Globbed(instance, u);
      var gone: set<Unit> := {};
      ClearStarts(instance, stops, units, todo);
      while todo != {}
        invariant units == old(units) - gone && starts == old(starts)
        invariant Clearing(instance, stops, old(units), todo, gone)
        decreases |todo|
      {
        var u :| u in todo;
        if u in stops {
          ClearCut(instance, stops, old(units), todo, gone, u);
          return false;
        }
        ClearStep(instance, stops, old(units), todo, gone, u);
        units := units - {u};
        todo, gone := todo - {u}, gone + {u};
      }
      ClearDone(instance, stops, reloads, old(units), gone);
      done := reloads || gone == {};
    }

    /** The loop over the mappings: writes the files whose content changes, and remembers which
        listeners and which proxies that concerns. */
    method Install(instance: string, listen: string, guest: string, mappings: seq<Mapping>)
      returns (written: nat, rebind: set<Unit>, rebackend: set<Unit>)
      requires Valid() && OncePerHost(mappings)
      modifies this`units
      ensures Valid()
      ensures written <= |mappings| && ValidPorts(mappings[..written])
      ensures written < |mappings| ==> !(ValidPort(mappings[written].host) && ValidPort(mappings[written].guest))
      ensures InstalledUpTo(instance, listen, guest, mappings, written, old(units), units)
      ensures old(units).Keys <= units.Keys
      ensures forall u :: u in rebind || u in rebackend ==> IsWanted(instance, mappings, written, u)
      ensures forall i :: 0 <= i < written ==>
        (UnitFor(instance, mappings[i]) in rebind <==>
          !HasSocket(old(units), UnitFor(instance, mappings[i]), SocketFor(listen, mappings[i])))
      ensures forall i :: 0 <= i < written ==>
        (UnitFor(instance, mappings[i]) in rebackend <==>
          !HasService(old(units), UnitFor(instance, mappings[i]), ServiceFor(guest, mappings[i])))
    {
      hide InstalledUpTo, IsWanted, Globbed;
      written, rebind, rebackend := 0, {}, {};
      InstallNone(instance, listen, guest, mappings, units);
      while written < |mappings|
        invariant Valid()
        invariant written <= |mappings| && ValidPorts(mappings[..written])
        invariant InstalledUpTo(instance, listen, guest, mappings, written, old(units), units)
        invariant old(units).Keys <= units.Keys
        invariant forall u :: u in rebind || u in rebackend ==> IsWanted(instance, mappings, written, u)
        invariant forall i :: 0 <= i < written ==>
          (UnitFor(instance, mappings[i]) in rebind <==>
            !HasSocket(old(units), UnitFor(instance, mappings[i]), SocketFor(listen, mappings[i])))
        invariant forall i :: 0 <= i < written ==>
          (UnitFor(instance, mappings[i]) in rebackend <==>
            !HasService(old(units), UnitFor(instance, mappings[i]), ServiceFor(guest, mappings[i])))
      {
        var m := mappings[written];
        if !ValidPort(m.host) || !ValidPort(m.guest) {
          return;
        }
        InstallStep(instance, listen, guest, mappings, written, old(units), units);
        WantedGrows(instance, mappings, written);
        var u, socket, service := UnitFor(instance, m), SocketFor(listen, m), ServiceFor(guest, m);
        var reopened, redirected := !HasSocket(units, u, socket), !HasService(units, u, service);
        units := units[u := Written(units, u, socket, service)];
        if reopened {
          rebind := rebind + {u};
        }
        if redirected {
          rebackend := rebackend + {u};
        }
        written := written + 1;
      }
    }

    /** Removes the units of the glob that no mapping asks for. */
    method Withdraw(instance: string, mappings: seq<Mapping>)
      requires Valid()
      modifies this`units
      ensures Valid()
      ensures forall u :: u in units <==>
                          u in old(units) && (Globbed(instance, u) ==> IsWanted(instance, mappings, |mappings|, u))
      ensures forall u :: u in units ==> units[u] == old(units)[u]
    {
      hide Globbed;
      var wanted := set m | m in mappings :: UnitFor(instance, m);
      assert forall u :: u in wanted <==> IsWanted(instance, mappings, |mappings|, u);
      var todo := set u | u in units && Globbed(instance, u);
      ghost var stale := todo - wanted;
      while todo != {}
        invariant forall u :: u in todo ==> u in old(units) && Globbed(instance, u)
        invariant units == old(units) - (stale - todo)
        decreases |todo|
      {
        var u :| u in todo;
        todo := todo - {u};
        if u !in wanted {
          units := units - {u};
        }
      }
    }

    /** Enables the socket of a unit, and starts or restarts it. Restarting takes the proxy down with
        it; a restart that fails may leave the socket stopped. */
    method StartSocket(u: Unit, restart: bool, refused: set<Unit>) returns (up: bool)
      requires Valid() && u in units
      modifies this
      ensures Valid() && old(starts) <= starts
      ensures up <==> u !in refused
      ensures up ==> HasStarted(u, restart, old(starts), old(units), units)
      ensures !up ==> u in units && (units[u] == old(units)[u] || units[u] == old(units)[u].(listener := None))
      ensures forall v :: v != u ==> SameAt(v, old(units), units)
    {
      var entry := units[u];
      if u in refused {
        var down: bool := *;
        if down {
          units := units[u := entry.(listener := None)];
        }
        return false;
      }
      if restart || entry.listener.None? {
        units := units[u := entry.(listener := Some(Running(entry.socket, starts)),
                                   proxy := if restart then None else entry.proxy)];
        starts := starts + 1;
      }
      up := true;
    }

    /** Enables and starts every wanted socket, in order, until one is refused. */
    method Start(instance: string, mappings: seq<Mapping>, rebind: set<Unit>, refused: set<Unit>)
      returns (started: nat)
      requires Valid() && OncePerHost(mappings)
      requires forall i :: 0 <= i < |mappings| ==> UnitFor(instance, mappings[i]) in units
      modifies this
      ensures Valid() && started <= |mappings| && units.Keys == old(units).Keys
      ensures forall i :: 0 <= i < started ==> UnitFor(instance, mappings[i]) !in refused
      ensures started < |mappings| ==> UnitFor(instance, mappings[started]) in refused
      ensures forall u :: u in units ==>
        units[u].socket == old(units)[u].socket && units[u].service == old(units)[u].service
      ensures started == |mappings| ==> StartedUpTo(instance, mappings, started, rebind, old(starts), old(units), units)
      ensures forall u :: !IsWanted(instance, mappings, |mappings|, u) ==> SameAt(u, old(units), units)
      ensures forall i :: started < i < |mappings| ==> SameAt(UnitFor(instance, mappings[i]), old(units), units)
    {
      hide IsWanted, Globbed, StartedUpTo, OncePerHost;
      started := 0;
      StartNone(instance, mappings, rebind, starts, units);
      while started < |mappings|
        invariant Valid() && started <= |mappings| && old(starts) <= starts
        invariant forall i :: 0 <= i < started ==> UnitFor(instance, mappings[i]) !in refused
        invariant StartedUpTo(instance, mappings, started, rebind, old(starts), old(units), units)
      {
        StartedFiles(instance, mappings, started, rebind, old(starts), old(units), units);
        ghost var before := units;
        var u := UnitFor(instance, mappings[started]);
        var up := StartSocket(u, u in rebind, refused);
        if !up {
          StoppedAt(instance, mappings, started, rebind, old(starts), old(units), before, units);
          return;
        }
        StartStep(instance, mappings, started, rebind, old(starts), old(units), before, units);
        started := started + 1;
      }
      StartedFiles(instance, mappings, started, rebind, old(starts), old(units), units);
      StartedAll(instance, mappings, rebind, old(starts), old(units), units);
    }

    /** Stops the proxies of redirected services. */
    method StopProxies(redirected: set<Unit>)
      requires Valid() && redirected <= units.Keys
      modifies this`units
      ensures Valid() && units.Keys == old(units).Keys
      ensures forall u :: u in units ==>
        units[u] == if u in redirected then old(units)[u].(proxy := None) else old(units)[u]
    {
      var todo := redirected;
      while todo != {}
        invariant todo <= redirected && Valid() && units.Keys == old(units).Keys
        invariant forall u :: u in units ==>
          units[u] == if u in redirected - todo then old(units)[u].(proxy := None) else old(units)[u]
        decreases |todo|
      {
        var u :| u in todo;
        units := units[u := units[u].(proxy := None)];
        todo := todo - {u};
      }
    }

    /** The `sync` verb. `ready` says whether its arguments are accepted and the proxy program is
        there, `refused` which sockets the system will not enable or start. */
    method Sync(
        instance: string, listen: string, guest: string, mappings: seq<Mapping>, ready: bool, refused: set<Unit>)
      returns (result: SyncResult)
      requires Valid() && OncePerHost(mappings)
      modifies this
      ensures Valid()
      ensures SameOutside(instance, old(units), units)
      ensures result == if !ready || mappings == [] then NotRun else if SomePortInvalid(mappings) then Rejected
                        else if exists i :: 0 <= i < |mappings| && UnitFor(instance, mappings[i]) in refused then Stuck
                        else Synced
      ensures result.NotRun? ==> units == old(units)
      ensures result.Rejected? ==>
        exists n | 0 <= n < |mappings| && FirstInvalid(mappings, n) ::
          InstalledUpTo(instance, listen, guest, mappings, n, old(units), units)
      ensures result.Stuck? || result.Synced? ==>
        && (forall u :: u in units && Globbed(instance, u) ==> IsWanted(instance, mappings, |mappings|, u))
        && HasFiles(units, instance, listen, guest, mappings)
      ensures result.Stuck? ==> forall k, i :: 0 <= k < i < |mappings| && UnitFor(instance, mappings[k]) in refused ==>
        HasWritten(instance, listen, guest, mappings[i], old(units), units)
      ensures result.Synced? ==> forall i :: 0 <= i < |mappings| ==>
        IsServed(instance, listen, guest, mappings[i], old(starts), old(units), units)
    {
      hide Globbed, HasFiles, SomePortInvalid;
      PortsInvalid(mappings);
      if !ready || mappings == [] {
        return NotRun;
      }
      var written, rebind, rebackend := Install(instance, listen, guest, mappings);
      WantedGlobbed(instance, mappings, written);
      if written < |mappings| {
        assert FirstInvalid(mappings, written);
        return Rejected;
      }
      assert mappings[..written] == mappings;
      label Installed:
      Withdraw(instance, mappings);
      label Withdrawn:
      var started := Start(instance, mappings, rebind, refused);
      FilesAre(units, instance, listen, guest, mappings);
      if started < |mappings| {
        return Stuck;
      }
      label Started:
      StopProxies(rebackend);
      FilesAre(units, instance, listen, guest, mappings);
      return Synced;
    }
  }

  /** A run that stops half-way has rewritten socket files it did not restart; the next run finds them
      unchanged and leaves the listeners at the old address. */
  method RetryLeavesStaleListener() returns (helper: Helper, u: Unit)
    ensures fresh(helper) && helper.Valid()
    ensures u in helper.units && helper.units[u].listener.Some?
    ensures helper.units[u].socket.listen == "100.64.0.9"
    ensures helper.units[u].listener.value.file.listen == "100.64.0.1"
  {
    helper := new Helper();
    var first, second := Mapping(80, 8080, true), Mapping(81, 8081, true);
    var mappings := [first, second];
    assert mappings[0] == first && mappings[1] == second;
    u := UnitFor("ss-app", second);
    var result := helper.Sync("ss-app", "100.64.0.1", "10.0.0.2", mappings, true, {});
    assert IsServed("ss-app", "100.64.0.1", "10.0.0.2", mappings[1], 0, map[], helper.units);
    ghost var published := helper.units;
    result := helper.Sync("ss-app", "100.64.0.9", "10.0.0.2", mappings, true, {UnitFor("ss-app", first)});
    assert result.Stuck? by {
      assert UnitFor("ss-app", mappings[0]) == UnitFor("ss-app", first);
    }
    assert HasWritten("ss-app", "100.64.0.9", "10.0.0.2", mappings[1], published, helper.units);
    ghost var stuck, starts := helper.units, helper.starts;
    result := helper.Sync("ss-app", "100.64.0.9", "10.0.0.2", mappings, true, {});
    assert IsServed("ss-app", "100.64.0.9", "10.0.0.2", mappings[1], starts, stuck, helper.units);
  }
}
