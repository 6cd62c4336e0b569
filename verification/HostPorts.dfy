/** Host ports of the tailnet: the `ports` of a configuration, their approval by the host's owner,
    and the registry in which projects reserve them. */
module HostPorts {

  import opened Prelude
  import opened Framing

  datatype Mapping = Mapping(guest: int, host: int, tailnet: bool)

  // ---- the configuration --------------------------------------------------------------

  ghost predicate DistinctGuests(entries: seq<Mapping>) {
    forall i, j :: 0 <= i < j < |entries| ==> entries[i].guest != entries[j].guest
  }

  /** No two published entries ask for one host port. */
  ghost predicate DistinctHosts(entries: seq<Mapping>) {
    forall i, j :: 0 <= i < j < |entries| && entries[i].tailnet && entries[j].tailnet ==>
        entries[i].host != entries[j].host
  }

  ghost predicate ByGuest(entries: seq<Mapping>) {
    forall i, j :: 0 <= i < j < |entries| ==> entries[i].guest < entries[j].guest
  }

  ghost predicate GuestSeen(entries: seq<Mapping>, n: nat)
    requires n < |entries|
  {
    exists i :: 0 <= i < n && entries[i].guest == entries[n].guest
  }

  ghost predicate HostSeen(entries: seq<Mapping>, n: nat)
    requires n < |entries|
  {
    entries[n].tailnet && exists i :: 0 <= i < n && entries[i].tailnet && entries[i].host == entries[n].host
  }

  /** The first entry that repeats an earlier one. */
  ghost predicate FirstBad(entries: seq<Mapping>, n: int) {
    && 0 <= n < |entries|
    && DistinctGuests(entries[..n]) && DistinctHosts(entries[..n])
    && (GuestSeen(entries, n) || HostSeen(entries, n))
  }

  datatype Parsed = Accepted(ports: seq<Mapping>) | DuplicateGuest(port: int) | DuplicateHost(port: int)

  method ParsePorts(entries: seq<Mapping>) returns (r: Parsed)
    ensures r.Accepted? <==> DistinctGuests(entries) && DistinctHosts(entries)
    ensures r.Accepted? ==> multiset(r.ports) == multiset(entries) && ByGuest(r.ports) && DistinctHosts(r.ports)
    ensures r.DuplicateGuest? ==>
        exists n :: FirstBad(entries, n) && entries[n].guest == r.port && GuestSeen(entries, n)
    ensures r.DuplicateHost? ==> exists n :: FirstBad(entries, n) && entries[n].host == r.port && !GuestSeen(entries, n)
  {
    var seenGuest: set<int>, seenHost: set<int> := {}, {};
    for n := 0 to |entries|
      invariant forall g :: g in seenGuest <==> exists i :: 0 <= i < n && entries[i].guest == g
      invariant forall h :: h in seenHost <==> exists i :: 0 <= i < n && entries[i].tailnet && entries[i].host == h
      invariant DistinctGuests(entries[..n]) && DistinctHosts(entries[..n])
    {
      var mapping := entries[n];
      if mapping.guest in seenGuest {
        assert FirstBad(entries, n) && GuestSeen(entries, n);
        return DuplicateGuest(mapping.guest);
      }
      seenGuest := seenGuest + {mapping.guest};
      if mapping.tailnet {
        if mapping.host in seenHost {
          assert FirstBad(entries, n) && !GuestSeen(entries, n);
          return DuplicateHost(mapping.host);
        }
        seenHost := seenHost + {mapping.host};
      }
    }
    assert entries[..|entries|] == entries;
    var sorted := SortByGuest(entries);
    SortingKeepsHostsDistinct(entries, sorted);
    r := Accepted(sorted);
  }

  /** `sorted(mappings, key=guest)` */
  method SortByGuest(entries: seq<Mapping>) returns (sorted: seq<Mapping>)
    requires DistinctGuests(entries)
    ensures multiset(sorted) == multiset(entries)
    ensures ByGuest(sorted)
  {
    sorted := [];
    for n := 0 to |entries|
      invariant multiset(sorted) == multiset(entries[..n])
      invariant ByGuest(sorted)
    {
      assert entries[..n + 1] == entries[..n] + [entries[n]];
      forall m | m in sorted ensures m.guest != entries[n].guest {
        assert m in multiset(entries[..n]);
      }
      InsertKeeps(entries[n], sorted);
      InsertSorts(entries[n], sorted);
      sorted := Insert(entries[n], sorted);
    }
    assert entries[..|entries|] == entries;
  }

  function Insert(mapping: Mapping, sorted: seq<Mapping>): seq<Mapping> {
    if sorted == [] || mapping.guest < sorted[0].guest then [mapping] + sorted
    else [sorted[0]] + Insert(mapping, sorted[1..])
  }

  lemma {:induction false} InsertKeeps(mapping: Mapping, sorted: seq<Mapping>)
    ensures multiset(Insert(mapping, sorted)) == multiset(sorted) + multiset{mapping}
  {
    if sorted != [] && mapping.guest >= sorted[0].guest {
      assert sorted == [sorted[0]] + sorted[1..];
      InsertKeeps(mapping, sorted[1..]);
    }
  }

  lemma {:induction false} InsertMembers(mapping: Mapping, sorted: seq<Mapping>)
    ensures forall m :: m in Insert(mapping, sorted) <==> m in sorted || m == mapping
  {
    if sorted != [] && mapping.guest >= sorted[0].guest {
      assert sorted == [sorted[0]] + sorted[1..];
      InsertMembers(mapping, sorted[1..]);
    }
  }

  lemma PrependSorts(first: Mapping, rest: seq<Mapping>)
    requires ByGuest(rest) && forall m :: m in rest ==> first.guest < m.guest
    ensures ByGuest([first] + rest)
  {
  }

  lemma {:induction false} InsertSorts(mapping: Mapping, sorted: seq<Mapping>)
    requires ByGuest(sorted)
    requires forall m :: m in sorted ==> m.guest != mapping.guest
    ensures ByGuest(Insert(mapping, sorted))
  {
    if sorted == [] || mapping.guest < sorted[0].guest {
      PrependSorts(mapping, sorted);
    } else {
      InsertSorts(mapping, sorted[1..]);
      InsertMembers(mapping, sorted[1..]);
      PrependSorts(sorted[0], Insert(mapping, sorted[1..]));
    }
  }

  lemma SortingKeepsHostsDistinct(entries: seq<Mapping>, sorted: seq<Mapping>)
    requires DistinctHosts(entries)
    requires multiset(sorted) == multiset(entries) && ByGuest(sorted)
    ensures DistinctHosts(sorted)
  {
    forall i, j | 0 <= i < j < |sorted| && sorted[i].tailnet && sorted[j].tailnet
      ensures sorted[i].host != sorted[j].host
    {
      assert sorted[i] in multiset(sorted) && sorted[j] in multiset(sorted);
      assert sorted[i] in entries && sorted[j] in entries;
    }
  }

  /** The mappings a configuration asks to publish; none when the tailnet is switched off. */
  function Publishable(ports: seq<Mapping>, enabled: bool): seq<Mapping> {
    if !enabled || ports == [] then []
    else (if ports[0].tailnet then [ports[0]] else []) + Publishable(ports[1..], enabled)
  }

  lemma {:induction false} PublishableMembers(ports: seq<Mapping>, enabled: bool)
    ensures forall m :: m in Publishable(ports, enabled) <==> enabled && m in ports && m.tailnet
  {
    if enabled && ports != [] {
      PublishableMembers(ports[1..], enabled);
      assert ports == [ports[0]] + ports[1..];
    }
  }

  /** They keep the order of the configuration. */
  lemma {:induction false} PublishableSorted(ports: seq<Mapping>, enabled: bool)
    requires ByGuest(ports)
    ensures ByGuest(Publishable(ports, enabled))
  {
    if enabled && ports != [] {
      PublishableSorted(ports[1..], enabled);
      PublishableMembers(ports[1..], enabled);
      if ports[0].tailnet {
        PrependSorts(ports[0], Publishable(ports[1..], enabled));
      }
    }
  }

  /** One host port never stands twice in one claim. */
  ghost predicate OncePerHost(mappings: seq<Mapping>) {
    forall i, j :: 0 <= i < j < |mappings| ==> mappings[i].host != mappings[j].host
  }

  lemma {:induction false} PublishableOncePerHost(ports: seq<Mapping>, enabled: bool)
    requires DistinctHosts(ports)
    ensures OncePerHost(Publishable(ports, enabled))
  {
    if enabled && ports != [] {
      PublishableOncePerHost(ports[1..], enabled);
      PublishableMembers(ports[1..], enabled);
    }
  }

  // ---- approval -----------------------------------------------------------------------

  const BAR := '|'

  function ApprovalKey(m: Mapping): string {
    Decimal(m.guest) + [BAR] + Decimal(m.host)
  }

  /** A recorded approval speaks of one guest port and one host port. */
  lemma ApprovalKeyExact(a: Mapping, b: Mapping)
    ensures ApprovalKey(a) == ApprovalKey(b) <==> a.guest == b.guest && a.host == b.host
    ensures ApprovalKey(Mapping(80, 8080, true)) == "80|8080"
  {
    assert Digits(8) == "8" && Digits(80) == "80" && Digits(808) == "808" && Digits(8080) == "8080";
    if ApprovalKey(a) == ApprovalKey(b) {
      FirstBar(a);
      FirstBar(b);
      assert Decimal(a.guest) == ApprovalKey(a)[..|Decimal(a.guest)|];
      assert Decimal(b.guest) == ApprovalKey(b)[..|Decimal(b.guest)|];
      assert Decimal(a.host) == ApprovalKey(a)[|Decimal(a.guest)| + 1..];
      assert Decimal(b.host) == ApprovalKey(b)[|Decimal(b.guest)| + 1..];
      DecimalRoundTrip(a.guest);
      DecimalRoundTrip(b.guest);
      DecimalRoundTrip(a.host);
      DecimalRoundTrip(b.host);
    }
  }

  lemma FirstBar(m: Mapping)
    ensures BAR !in Decimal(m.guest)
    ensures ApprovalKey(m)[|Decimal(m.guest)|] == BAR
    ensures forall i :: 0 <= i < |Decimal(m.guest)| ==> ApprovalKey(m)[i] == Decimal(m.guest)[i] != BAR
  {
    assert forall i :: 0 <= i < |Decimal(m.guest)| ==> Decimal(m.guest)[i] in Decimal(m.guest);
  }

  /** Whether the owner has allowed this publication: before, or now at the prompt. */
  predicate Allowed(m: Mapping, recorded: seq<string>, prompt: bool, answers: string -> bool) {
    ApprovalKey(m) in recorded || (prompt && answers(ApprovalKey(m)))
  }

  function Those(mappings: seq<Mapping>, recorded: seq<string>, prompt: bool, answers: string -> bool, allowed: bool):
    seq<Mapping>
  {
    if mappings == [] then []
    else
      var last := mappings[|mappings| - 1];
      Those(mappings[..|mappings| - 1], recorded, prompt, answers, allowed)
      + if Allowed(last, recorded, prompt, answers) == allowed then [last] else []
  }

  lemma {:induction false} ThoseMembers(
      mappings: seq<Mapping>, recorded: seq<string>, prompt: bool, answers: string -> bool, allowed: bool)
    ensures forall m :: m in Those(mappings, recorded, prompt, answers, allowed) <==>
                        m in mappings && Allowed(m, recorded, prompt, answers) == allowed
  {
    if mappings != [] {
      var rest := mappings[..|mappings| - 1];
      ThoseMembers(rest, recorded, prompt, answers, allowed);
      assert mappings == rest + [mappings[|mappings| - 1]];
    }
  }

  lemma {:induction false} ThoseOncePerHost(
      mappings: seq<Mapping>, recorded: seq<string>, prompt: bool, answers: string -> bool, allowed: bool)
    requires OncePerHost(mappings)
    ensures OncePerHost(Those(mappings, recorded, prompt, answers, allowed))
  {
    if mappings != [] {
      var rest := mappings[..|mappings| - 1];
      var those := Those(rest, recorded, prompt, answers, allowed);
      ThoseOncePerHost(rest, recorded, prompt, answers, allowed);
      ThoseMembers(rest, recorded, prompt, answers, allowed);
      forall i | 0 <= i < |those| ensures those[i].host != mappings[|mappings| - 1].host {
        assert those[i] in rest;
      }
    }
  }

  /** What the ledger may have gained: keys the owner confirmed at the prompt. */
  ghost predicate OnlyConfirmed(before: seq<string>, after: seq<string>, prompt: bool, answers: string -> bool) {
    && before <= after
    && forall key :: key in after ==> key in before || (prompt && answers(key))
  }

  /** The approvals of one project. `answers` is what its owner says when asked about a pair of ports. */
  class Ledger {
    var recorded: seq<string>

    constructor ()
      ensures recorded == []
    {
      recorded := [];
    }

    method Split(requested: seq<Mapping>, prompt: bool, answers: string -> bool)
      returns (approved: seq<Mapping>, pending: seq<Mapping>)
      modifies this
      ensures approved == Those(requested, old(recorded), prompt, answers, true)
      ensures pending == Those(requested, old(recorded), prompt, answers, false)
      ensures OnlyConfirmed(old(recorded), recorded, prompt, answers)
      ensures forall m :: m in approved ==> ApprovalKey(m) in recorded
    {
      hide ApprovalKey;
      approved, pending := [], [];
      for i := 0 to |requested|
        invariant approved == Those(requested[..i], old(recorded), prompt, answers, true)
        invariant pending == Those(requested[..i], old(recorded), prompt, answers, false)
        invariant OnlyConfirmed(old(recorded), recorded, prompt, answers)
        invariant forall m :: m in approved ==> ApprovalKey(m) in recorded
      {
        var mapping := requested[i];
        assert requested[..i + 1][..i] == requested[..i];
        if ApprovalKey(mapping) in recorded {
          approved := approved + [mapping];
        } else if !prompt {
          pending := pending + [mapping];
        } else if !answers(ApprovalKey(mapping)) {
          pending := pending + [mapping];
        } else {
          recorded := recorded + [ApprovalKey(mapping)];
          approved := approved + [mapping];
        }
      }
      assert requested[..|requested|] == requested;
    }
  }

  // ---- the registry -------------------------------------------------------------------

  datatype Owner = Owner(project: string, instance: string, guest: int)

  ghost predicate Wants(mappings: seq<Mapping>, port: int) {
    exists i :: 0 <= i < |mappings| && mappings[i].host == port
  }

  /** No wanted port belongs to somebody else. */
  ghost predicate Claimable(ports: map<int, Owner>, project: string, mappings: seq<Mapping>) {
    forall i :: 0 <= i < |mappings| && mappings[i].host in ports ==> ports[mappings[i].host].project == project
  }

  /** The refusal names the first wanted port that somebody else owns. */
  ghost predicate FirstConflict(ports: map<int, Owner>, project: string, mappings: seq<Mapping>, m: Mapping) {
    exists i :: 0 <= i < |mappings| && mappings[i] == m && Claimable(ports, project, mappings[..i])
                && m.host in ports && ports[m.host].project != project
  }

  /** Everybody else's ports are what they were. */
  ghost predicate OthersKept(project: string, before: map<int, Owner>, after: map<int, Owner>) {
    && (forall h :: h in before && before[h].project != project ==> h in after && after[h] == before[h])
    && (forall h :: h in after && after[h].project != project ==> h in before && before[h] == after[h])
  }

  /** The project owns these ports, for these guest ports, and no other. */
  ghost predicate OwnsExactly(ports: map<int, Owner>, project: string, instance: string, mappings: seq<Mapping>) {
    && (forall h :: h in ports && ports[h].project == project ==> Wants(mappings, h))
    && (forall i :: 0 <= i < |mappings| ==>
          mappings[i].host in ports && ports[mappings[i].host] == Owner(project, instance, mappings[i].guest))
  }

  /** The first mappings have their ports, and the project has none that it does not want. */
  ghost predicate Claimed(
      ports: map<int, Owner>, project: string, instance: string, mappings: seq<Mapping>, n: nat)
    requires n <= |mappings|
  {
    && (forall h :: h in ports && ports[h].project == project ==> Wants(mappings, h))
    && (forall i :: 0 <= i < n ==>
          mappings[i].host in ports && ports[mappings[i].host] == Owner(project, instance, mappings[i].guest))
  }

  lemma ClaimStarts(before: map<int, Owner>, ports: map<int, Owner>, project: string, instance: string,
                    mappings: seq<Mapping>, stale: set<int>)
    requires ports == before - stale
    requires stale == set h | h in before && before[h].project == project && h !in (set m | m in mappings :: m.host)
    ensures OthersKept(project, before, ports) && Claimed(ports, project, instance, mappings, 0)
  {
    forall h | h in ports && ports[h].project == project ensures Wants(mappings, h) {
      assert h !in stale;
      var m :| m in mappings && m.host == h;
    }
  }

  lemma ClaimStep(before: map<int, Owner>, ports: map<int, Owner>, project: string, instance: string,
                  mappings: seq<Mapping>, i: nat)
    requires i < |mappings| && OncePerHost(mappings) && Claimable(before, project, mappings)
    requires OthersKept(project, before, ports) && Claimed(ports, project, instance, mappings, i)
    ensures
      var after := ports[mappings[i].host := Owner(project, instance, mappings[i].guest)];
      OthersKept(project, before, after) && Claimed(after, project, instance, mappings, i + 1)
  {
    assert Wants(mappings, mappings[i].host);
  }

  lemma ClaimEnds(ports: map<int, Owner>, project: string, instance: string, mappings: seq<Mapping>)
    requires Claimed(ports, project, instance, mappings, |mappings|)
    ensures OwnsExactly(ports, project, instance, mappings)
  {
  }

  class Registry {
    var ports: map<int, Owner>

    constructor ()
      ensures ports == map[]
    {
      ports := map[];
    }

    /** Reserves exactly these host ports, or refuses over the first that another project holds. */
    method Claim(project: string, instance: string, mappings: seq<Mapping>) returns (conflict: Option<Mapping>)
      requires OncePerHost(mappings)
      modifies this
      ensures conflict.None? <==> Claimable(old(ports), project, mappings)
      ensures conflict.Some? ==> ports == old(ports) && FirstConflict(ports, project, mappings, conflict.value)
      ensures OthersKept(project, old(ports), ports)
      ensures conflict.None? ==> OwnsExactly(ports, project, instance, mappings)
    {
      for i := 0 to |mappings|
        invariant Claimable(ports, project, mappings[..i])
      {
        if mappings[i].host in ports && ports[mappings[i].host].project != project {
          return Some(mappings[i]);
        }
      }
      assert mappings[..|mappings|] == mappings;
      hide Claimable, OthersKept, Claimed, OwnsExactly;
      var wanted := set m | m in mappings :: m.host;
      var stale := set port | port in ports && ports[port].project == project && port !in wanted;
      ports := ports - stale;
      ClaimStarts(old(ports), ports, project, instance, mappings, stale);
      for i := 0 to |mappings|
        invariant OthersKept(project, old(ports), ports)
        invariant Claimed(ports, project, instance, mappings, i)
      {
        ClaimStep(old(ports), ports, project, instance, mappings, i);
        ports := ports[mappings[i].host := Owner(project, instance, mappings[i].guest)];
      }
      ClaimEnds(ports, project, instance, mappings);
      conflict := None;
    }

    method Release(project: string)
      modifies this
      ensures OthersKept(project, old(ports), ports)
      ensures forall h :: h in ports ==> ports[h].project != project
    {
      var owned := set port | port in ports && ports[port].project == project;
      if owned == {} {
        assert forall h :: h in ports && ports[h].project == project ==> h in owned;
        return;
      }
      ports := ports - owned;
    }
  }
}
