/** Resolved endpoints grouped into firewall rules, and the addresses pinned in the guest. */
module AclPolicy {
  import opened Prelude
  import opened Framing

  datatype Entry = Entry(host: string, ports: seq<nat>, protocol: string, allowPrivate: bool)

  /** What the host's resolver said for one entry. The same name may resolve differently later. */
  datatype Lookup = Unresolved | Resolved(addresses: seq<string>)

  datatype Resolution = Resolution(entry: Entry, lookup: Lookup)

  /** Rules carry comma-joined text, as Incus takes them. */
  datatype Rule = Rule(protocol: string, destination: string, destinationPort: string)

  datatype Ingress = Ingress(destinationPort: string, source: Option<string>)

  datatype Policy =
    | Open
    | Filtered(egress: seq<Rule>, ingress: Option<Ingress>, resolutions: map<string, seq<string>>,
               unresolvedDefaults: seq<string>)

  type Group = (string, seq<nat>)

  function Texts(ports: seq<nat>): (texts: seq<string>)
    ensures |texts| == |ports|
    ensures forall i :: 0 <= i < |ports| ==> texts[i] == Decimal(ports[i])
  {
    seq(|ports|, i requires 0 <= i < |ports| => Decimal(ports[i]))
  }

  /** A rule lets a packet through when its destination and port lists, read back, name it. */
  predicate RulePermits(rule: Rule, protocol: string, address: string, port: nat) {
    rule.protocol == protocol && address in Split(rule.destination) && Decimal(port) in Split(rule.destinationPort)
  }

  ghost predicate Permits(rules: seq<Rule>, protocol: string, address: string, port: nat) {
    exists i :: 0 <= i < |rules| && RulePermits(rules[i], protocol, address, port)
  }

  /** The entry, resolved on its own, asks for the packet. */
  predicate Asks(r: Resolution, protocol: string, address: string, port: nat) {
    r.lookup.Resolved? && r.entry.protocol == protocol && address in r.lookup.addresses && port in r.entry.ports
  }

  ghost predicate SomeAsks(rs: seq<Resolution>, protocol: string, address: string, port: nat) {
    exists i :: 0 <= i < |rs| && Asks(rs[i], protocol, address, port)
  }

  predicate ResolvesTo(r: Resolution, address: string) {
    r.lookup.Resolved? && address in r.lookup.addresses
  }

  /** An address that the firewall must refuse for this entry. */
  predicate Refuses(r: Resolution, acceptable: (string, bool) -> bool) {
    r.lookup.Resolved?
    && exists i :: 0 <= i < |r.lookup.addresses| && !acceptable(r.lookup.addresses[i], r.entry.allowPrivate)
  }

  lemma RefusesSome(r: Resolution, acceptable: (string, bool) -> bool)
    ensures Refuses(r, acceptable) <==>
              exists address :: ResolvesTo(r, address) && !acceptable(address, r.entry.allowPrivate)
  {
    if address :| ResolvesTo(r, address) && !acceptable(address, r.entry.allowPrivate) {
      var i :| 0 <= i < |r.lookup.addresses| && r.lookup.addresses[i] == address;
    }
    if Refuses(r, acceptable) {
      var i :| 0 <= i < |r.lookup.addresses| && !acceptable(r.lookup.addresses[i], r.entry.allowPrivate);
      assert ResolvesTo(r, r.lookup.addresses[i]);
    }
  }

  /** Resolvers and address parsers return non-empty addresses without commas. */
  predicate WellAddressed(rs: seq<Resolution>) {
    forall i :: 0 <= i < |rs| && rs[i].lookup.Resolved? ==> HostList(rs[i].lookup.addresses)
  }

  ghost predicate InGroup(rs: seq<Resolution>, group: Group, address: string) {
    exists i :: 0 <= i < |rs| && rs[i].lookup.Resolved? && (rs[i].entry.protocol, rs[i].entry.ports) == group
                && address in rs[i].lookup.addresses
  }

  /** The groups hold exactly the resolved addresses, each under its protocol and port list. */
  ghost predicate Grouped(rs: seq<Resolution>, grouped: map<Group, set<string>>) {
    forall group: Group, address: string ::
      group in grouped && address in grouped[group] <==> InGroup(rs, group, address)
  }

  /** Entry `i` is the last one for the host that resolved. */
  ghost predicate LastResolved(rs: seq<Resolution>, host: string, i: nat) {
    && i < |rs| && rs[i].entry.host == host && rs[i].lookup.Resolved?
    && forall j :: i < j < |rs| && rs[j].entry.host == host ==> rs[j].lookup.Unresolved?
  }

  /** Recorded are exactly the hosts that resolved, each with what its last entry resolved to. */
  ghost predicate Recorded(rs: seq<Resolution>, resolutions: map<string, seq<string>>) {
    && (forall host :: host in resolutions ==> exists i: nat :: LastResolved(rs, host, i))
    && (forall host, i: nat :: LastResolved(rs, host, i) ==>
          host in resolutions && resolutions[host] == rs[i].lookup.addresses)
  }

  lemma GroupedNext(rs: seq<Resolution>, r: Resolution, grouped: map<Group, set<string>>, after: map<Group,
                    set<string>>)
    requires Grouped(rs, grouped)
    requires r.lookup.Unresolved? ==> after == grouped
    requires r.lookup.Resolved? ==>
      var group := (r.entry.protocol, r.entry.ports);
      after == grouped[group := (if group in grouped then grouped[group] else {}) + (set a | a in r.lookup.addresses)]
    ensures Grouped(rs + [r], after)
  {
    var all := rs + [r];
    forall group: Group, address: string
      ensures InGroup(all, group, address)
              <==> InGroup(rs, group, address)
                   || (r.lookup.Resolved? && (r.entry.protocol, r.entry.ports) == group
                        && address in r.lookup.addresses)
    {
      if InGroup(rs, group, address) {
        var i :| 0 <= i < |rs| && rs[i].lookup.Resolved? && (rs[i].entry.protocol, rs[i].entry.ports) == group
                 && address in rs[i].lookup.addresses;
        assert all[i] == rs[i];
      }
      if r.lookup.Resolved? && (r.entry.protocol, r.entry.ports) == group && address in r.lookup.addresses {
        assert all[|rs|] == r;
      }
    }
  }

  lemma LastOfMore(rs: seq<Resolution>, r: Resolution, host: string, i: nat)
    ensures i < |rs| ==>
              (LastResolved(rs + [r], host, i)
               <==> LastResolved(rs, host, i) && (r.entry.host == host ==> r.lookup.Unresolved?))
    ensures LastResolved(rs + [r], host, |rs|) <==> r.entry.host == host && r.lookup.Resolved?
  {
    var all := rs + [r];
    assert all[|rs|] == r && forall j :: 0 <= j < |rs| ==> all[j] == rs[j];
  }

  lemma RecordedNext(rs: seq<Resolution>, r: Resolution, resolutions: map<string, seq<string>>)
    requires Recorded(rs, resolutions)
    ensures r.lookup.Unresolved? ==> Recorded(rs + [r], resolutions)
    ensures r.lookup.Resolved? ==> Recorded(rs + [r], resolutions[r.entry.host := r.lookup.addresses])
  {
    var all := rs + [r];
    var after := if r.lookup.Resolved? then resolutions[r.entry.host := r.lookup.addresses] else resolutions;
    forall host, i: nat | LastResolved(all, host, i) ensures host in after && after[host] == all[i].lookup.addresses {
      LastOfMore(rs, r, host, i);
      assert i < |rs| ==> LastResolved(rs, host, i);
    }
    forall host | host in after ensures exists i: nat :: LastResolved(all, host, i) {
      LastOfMore(rs, r, host, |rs|);
      if !(host == r.entry.host && r.lookup.Resolved?) {
        var i: nat :| LastResolved(rs, host, i);
        LastOfMore(rs, r, host, i);
      }
    }
  }

  lemma NothingYet()
    ensures Grouped([], map[]) && Recorded([], map[])
  {
  }

  function UnresolvedHosts(rs: seq<Resolution>): seq<string> {
    if rs == [] then []
    else UnresolvedHosts(rs[..|rs| - 1]) + if rs[|rs| - 1].lookup.Unresolved? then [rs[|rs| - 1].entry.host] else []
  }

  /** The members of a set as a list; which order does not matter to the rules. */
  method Listed(s: set<string>) returns (list: seq<string>)
    ensures forall a :: a in list <==> a in s
  {
    list := [];
    var rest := s;
    while rest != {}
      invariant rest <= s
      invariant forall a :: a in s <==> a in list || a in rest
      decreases rest
    {
      var a :| a in rest;
      list := list + [a];
      rest := rest - {a};
    }
  }

  lemma SplitJoined(hosts: seq<string>)
    requires HostList(hosts)
    ensures Split(Join(hosts)) == hosts
  {
    HostListRoundTrip(hosts);
  }

  lemma DecimalIsHost(n: nat)
    ensures Decimal(n) != "" && COMMA !in Decimal(n)
  {
  }

  lemma PortsReadBack(ports: seq<nat>, port: nat)
    ensures Decimal(port) in Split(Join(Texts(ports))) <==> port in ports
  {
    var texts := Texts(ports);
    forall i | 0 <= i < |texts| ensures texts[i] != "" && COMMA !in texts[i] {
      DecimalIsHost(ports[i]);
    }
    SplitJoined(texts);
    if Decimal(port) in texts {
      var i :| 0 <= i < |texts| && texts[i] == Decimal(port);
      DecimalRoundTrip(port);
      DecimalRoundTrip(ports[i]);
    }
    if port in ports {
      var i :| 0 <= i < |ports| && ports[i] == port;
      assert texts[i] == Decimal(port);
    }
  }

  lemma TextsReadBack(ports: seq<nat>)
    ensures Split(Join(Texts(ports))) == Texts(ports)
  {
    forall i | 0 <= i < |ports| ensures Texts(ports)[i] != "" && COMMA !in Texts(ports)[i] {
      DecimalIsHost(ports[i]);
    }
    SplitJoined(Texts(ports));
  }

  function RuleFor(group: Group, addresses: seq<string>): Rule {
    Rule(group.0, Join(addresses), Join(Texts(group.1)))
  }

  lemma RuleExact(group: Group, addresses: seq<string>, protocol: string, address: string, port: nat)
    requires HostList(addresses)
    ensures RulePermits(RuleFor(group, addresses), protocol, address, port)
            <==> group.0 == protocol && address in addresses && port in group.1
  {
    SplitJoined(addresses);
    PortsReadBack(group.1, port);
  }

  /** The rules permit exactly what the groups in `done` hold. */
  ghost predicate Covers(rules: seq<Rule>, grouped: map<Group, set<string>>, done: set<Group>)
    requires done <= grouped.Keys
  {
    forall protocol, address, port ::
      Permits(rules, protocol, address, port)
      <==> exists group :: group in done && group.0 == protocol && address in grouped[group] && port in group.1
  }

  lemma CoversNext(rules: seq<Rule>, grouped: map<Group, set<string>>, done: set<Group>, group: Group,
        addresses: seq<string>)
    requires done <= grouped.Keys && group in grouped && Covers(rules, grouped, done)
    requires HostList(addresses) && forall a :: a in addresses <==> a in grouped[group]
    ensures Covers(rules + [RuleFor(group, addresses)], grouped, done + {group})
  {
    var rule := RuleFor(group, addresses);
    var all := rules + [rule];
    forall protocol, address, port
      ensures Permits(all, protocol, address, port)
              <==> exists g :: g in done + {group} && g.0 == protocol && address in grouped[g] && port in g.1
    {
      RuleExact(group, addresses, protocol, address, port);
      if Permits(rules, protocol, address, port) {
        var i :| 0 <= i < |rules| && RulePermits(rules[i], protocol, address, port);
        assert RulePermits(all[i], protocol, address, port);
      }
      if RulePermits(rule, protocol, address, port) {
        assert RulePermits(all[|rules|], protocol, address, port);
        assert group in done + {group};
      }
      if Permits(all, protocol, address, port) {
        var i :| 0 <= i < |all| && RulePermits(all[i], protocol, address, port);
        if i < |rules| {
          assert RulePermits(rules[i], protocol, address, port);
          assert Permits(rules, protocol, address, port);
        }
      }
    }
  }

  /** Grouping preserves meaning: what the groups cover is what the entries ask for. */
  lemma CoveredIsAsked(rs: seq<Resolution>, grouped: map<Group, set<string>>, rules: seq<Rule>)
    requires Grouped(rs, grouped) && Covers(rules, grouped, grouped.Keys)
    ensures forall protocol, address, port ::
              Permits(rules, protocol, address, port) <==> SomeAsks(rs, protocol, address, port)
  {
    forall protocol, address, port
      ensures Permits(rules, protocol, address, port) <==> SomeAsks(rs, protocol, address, port)
    {
      if Permits(rules, protocol, address, port) {
        var group :| group in grouped.Keys && group.0 == protocol && address in grouped[group] && port in group.1;
        assert InGroup(rs, group, address);
        var i :| 0 <= i < |rs| && rs[i].lookup.Resolved? && (rs[i].entry.protocol, rs[i].entry.ports) == group
                 && address in rs[i].lookup.addresses;
        assert Asks(rs[i], protocol, address, port);
      }
      if SomeAsks(rs, protocol, address, port) {
        var i :| 0 <= i < |rs| && Asks(rs[i], protocol, address, port);
        var group := (rs[i].entry.protocol, rs[i].entry.ports);
        assert InGroup(rs, group, address);
        assert group in grouped.Keys && group.0 == protocol && address in grouped[group] && port in group.1;
      }
    }
  }

  /** Groups of resolved addresses hold addresses that can be joined with commas. */
  lemma GroupIsHostList(rs: seq<Resolution>, grouped: map<Group, set<string>>, group: Group, addresses: seq<string>)
    requires WellAddressed(rs) && Grouped(rs, grouped) && group in grouped
    requires forall a :: a in addresses <==> a in grouped[group]
    ensures HostList(addresses)
  {
    forall k | 0 <= k < |addresses| ensures addresses[k] != "" && COMMA !in addresses[k] {
      assert addresses[k] in grouped[group];
      assert InGroup(rs, group, addresses[k]);
    }
  }

  method RulesFor(rs: seq<Resolution>, grouped: map<Group, set<string>>) returns (rules: seq<Rule>)
    requires WellAddressed(rs) && Grouped(rs, grouped)
    ensures forall protocol, address, port ::
              Permits(rules, protocol, address, port) <==> SomeAsks(rs, protocol, address, port)
  {
    rules := [];
    var todo := grouped.Keys;
    while todo != {}
      invariant todo <= grouped.Keys
      invariant Covers(rules, grouped, grouped.Keys - todo)
      decreases todo
    {
      var group :| group in todo;
      var addresses := Listed(grouped[group]);
      GroupIsHostList(rs, grouped, group, addresses);
      CoversNext(rules, grouped, grouped.Keys - todo, group, addresses);
      assert grouped.Keys - todo + {group} == grouped.Keys - (todo - {group});
      rules := rules + [RuleFor(group, addresses)];
      todo := todo - {group};
    }
    assert grouped.Keys - todo == grouped.Keys;
    CoveredIsAsked(rs, grouped, rules);
  }

  /** `build_acl_policy`. Built-in and host-wide endpoints may fail to resolve; a project's own
      may not, and a forbidden address refuses the whole policy. */
  method BuildAclPolicy(enabled: bool, openAllowed: bool, defaults: seq<Resolution>, project: seq<Resolution>,
                        acceptable: (string, bool) -> bool, guestPorts: seq<nat>, gateway: Option<string>)
    returns (policy: Option<Policy>)
    requires WellAddressed(defaults) && WellAddressed(project)
    ensures !enabled ==> policy == if openAllowed then Some(Open) else None
    ensures enabled ==>
              (policy.None? <==>
                 || (exists i :: 0 <= i < |project| && project[i].lookup.Unresolved?)
                 || (exists r, address :: (r in defaults || r in project)
                       && ResolvesTo(r, address) && !acceptable(address, r.entry.allowPrivate)))
    ensures enabled && policy.Some? ==>
              && policy.value.Filtered?
              && (forall protocol, address, port ::
                    Permits(policy.value.egress, protocol, address, port)
                    <==> SomeAsks(defaults + project, protocol, address, port))
              && Recorded(defaults + project, policy.value.resolutions)
              && policy.value.unresolvedDefaults == UnresolvedHosts(defaults)
              && (policy.value.ingress.None? <==> guestPorts == [])
              && (policy.value.ingress.Some? ==>
                    && policy.value.ingress.value.source == gateway
                    && Split(policy.value.ingress.value.destinationPort) == Texts(guestPorts))
  {
    hide Grouped, Recorded, Refuses, Permits, SomeAsks, ResolvesTo;
    if !enabled {
      return if openAllowed then Some(Open) else None;
    }
    var grouped: map<Group, set<string>> := map[];
    var resolutions: map<string, seq<string>> := map[];
    var unresolved: seq<string> := [];
    NothingYet();
    for i := 0 to |defaults|
      invariant Grouped(defaults[..i], grouped) && Recorded(defaults[..i], resolutions)
      invariant unresolved == UnresolvedHosts(defaults[..i])
      invariant forall k :: 0 <= k < i ==> !Refuses(defaults[k], acceptable)
    {
      var r := defaults[i];
      assert defaults[..i + 1] == defaults[..i] + [r];
      assert defaults[..i + 1][..i] == defaults[..i];
      RefusesSome(r, acceptable);
      if Refuses(r, acceptable) {
        return None;
      }
      ghost var before := grouped;
      RecordedNext(defaults[..i], r, resolutions);
      match r.lookup {
        case Unresolved => unresolved := unresolved + [r.entry.host];
        case Resolved(addresses) =>
          resolutions := resolutions[r.entry.host := addresses];
          var group := (r.entry.protocol, r.entry.ports);
          grouped := grouped[group := (if group in grouped then grouped[group] else {}) + (set a | a in addresses)];
      }
      GroupedNext(defaults[..i], r, before, grouped);
    }
    assert defaults[..|defaults|] == defaults == defaults + project[..0];
    for i := 0 to |project|
      invariant Grouped(defaults + project[..i], grouped) && Recorded(defaults + project[..i], resolutions)
      invariant forall k :: 0 <= k < i ==> project[k].lookup.Resolved? && !Refuses(project[k], acceptable)
    {
      var r := project[i];
      assert defaults + project[..i + 1] == defaults + project[..i] + [r];
      RefusesSome(r, acceptable);
      if r.lookup.Unresolved? || Refuses(r, acceptable) {
        return None;
      }
      ghost var before := grouped;
      RecordedNext(defaults + project[..i], r, resolutions);
      resolutions := resolutions[r.entry.host := r.lookup.addresses];
      var group := (r.entry.protocol, r.entry.ports);
      grouped := grouped[group := (if group in grouped then grouped[group] else {})
          + (set a | a in r.lookup.addresses)];
      GroupedNext(defaults + project[..i], r, before, grouped);
    }
    assert project[..|project|] == project;
    forall r, address | (r in defaults || r in project) && ResolvesTo(r, address)
      ensures acceptable(address, r.entry.allowPrivate)
    {
      RefusesSome(r, acceptable);
    }
    var egress := RulesFor(defaults + project, grouped);
    TextsReadBack(guestPorts);
    var ingress := if guestPorts == [] then None else Some(Ingress(Join(Texts(guestPorts)), gateway));
    return Some(Filtered(egress, ingress, resolutions, unresolved));
  }

  // ---- the addresses pinned in the guest -----------------------------------------------------------

  predicate Dialable(host: string, address: string) {
    '/' !in address && address != host
  }

  function Keep(addresses: seq<string>, wanted: string -> bool): seq<string> {
    if addresses == [] then []
    else (if wanted(addresses[0]) then [addresses[0]] else []) + Keep(addresses[1..], wanted)
  }

  lemma {:induction false} KeepMembers(addresses: seq<string>, wanted: string -> bool)
    ensures forall a :: a in Keep(addresses, wanted) <==> a in addresses && wanted(a)
  {
    if addresses != [] {
      KeepMembers(addresses[1..], wanted);
      assert forall a :: a in addresses <==> a == addresses[0] || a in addresses[1..];
    }
  }

  lemma Joined(a: seq<string>, b: seq<string>, c: seq<string>)
    ensures a + (b + c) == a + b + c
  {
  }

  lemma {:induction false} KeepAppends(front: seq<string>, back: seq<string>, wanted: string -> bool)
    ensures Keep(front + back, wanted) == Keep(front, wanted) + Keep(back, wanted)
  {
    if front == [] {
      assert front + back == back;
    } else {
      KeepAppends(front[1..], back, wanted);
      assert (front + back)[1..] == front[1..] + back;
      var head := if wanted(front[0]) then [front[0]] else [];
      Joined(head, Keep(front[1..], wanted), Keep(back, wanted));
    }
  }

  /** What is pinned for one host: its dialable addresses, the IPv4 ones if there are any. */
  function PinnedAddresses(host: string, addresses: seq<string>): seq<string> {
    var usable := Keep(addresses, a => Dialable(host, a));
    var preferred := Keep(usable, a => ':' !in a);
    if preferred != [] then preferred else usable
  }

  /** Exactly which addresses are pinned: those that the guest can dial, no network and not the literal
      itself; of these the IPv4 ones, and the others only if there is none. */
  lemma PinnedExactly(host: string, addresses: seq<string>, address: string)
    ensures address in PinnedAddresses(host, addresses) <==>
              && address in addresses && '/' !in address && address != host
              && (':' in address ==>
                    forall other :: other in addresses && '/' !in other && other != host ==> ':' in other)
  {
    var dialable, short := a => Dialable(host, a), a => ':' !in a;
    KeepMembers(addresses, dialable);
    KeepMembers(Keep(addresses, dialable), short);
    var preferred := Keep(Keep(addresses, dialable), short);
    if preferred != [] {
      assert preferred[0] in preferred;
    }
  }

  /** Addresses are pinned in the order in which they were resolved: what the front of a list gives comes
      first, whatever follows it, once it has an IPv4 address to dial. */
  lemma PinnedInOrder(host: string, front: seq<string>, back: seq<string>)
    ensures var all, first := PinnedAddresses(host, front + back), PinnedAddresses(host, front);
            (exists a :: a in front && Dialable(host, a) && ':' !in a) ==> first <= all
  {
    var dialable, short := a => Dialable(host, a), a => ':' !in a;
    KeepAppends(front, back, dialable);
    KeepAppends(Keep(front, dialable), Keep(back, dialable), short);
    if a :| a in front && Dialable(host, a) && ':' !in a {
      KeepMembers(front, dialable);
      KeepMembers(Keep(front, dialable), short);
      assert a in Keep(Keep(front, dialable), short);
    }
  }

  /** Whatever an entry resolved to, if it is the last of its host that did, is pinned as far as it can be
      dialed. */
  lemma ResolvedIsPinned(rs: seq<Resolution>, resolutions: map<string, seq<string>>, i: nat, address: string)
    requires Recorded(rs, resolutions) && i < |rs| && LastResolved(rs, rs[i].entry.host, i)
    requires var host := rs[i].entry.host;
             && address in rs[i].lookup.addresses && '/' !in address && address != host
             && (':' in address ==>
                   forall other :: other in rs[i].lookup.addresses && '/' !in other && other != host ==> ':' in other)
    ensures rs[i].entry.host in resolutions
    ensures address in PinnedAddresses(rs[i].entry.host, resolutions[rs[i].entry.host])
  {
    PinnedExactly(rs[i].entry.host, rs[i].lookup.addresses, address);
  }

  /** Every address pinned in the guest is a destination that some rule lets through on every port
      of some entry for that host, whichever of several lookups of the host was recorded. */
  lemma PinsArePermitted(rs: seq<Resolution>, rules: seq<Rule>, resolutions: map<string, seq<string>>, host: string,
        address: string)
    requires forall protocol, a, port :: Permits(rules, protocol, a, port) <==> SomeAsks(rs, protocol, a, port)
    requires Recorded(rs, resolutions) && host in resolutions && address in PinnedAddresses(host, resolutions[host])
    ensures exists i :: 0 <= i < |rs| && rs[i].entry.host == host
              && forall port :: port in rs[i].entry.ports ==> Permits(rules, rs[i].entry.protocol, address, port)
    ensures (forall i :: 0 <= i < |rs| ==> rs[i].entry.ports != []) ==>
              exists protocol, port :: Permits(rules, protocol, address, port)
  {
    var i: nat :| LastResolved(rs, host, i);
    PinnedExactly(host, resolutions[host], address);
    forall port | port in rs[i].entry.ports ensures Permits(rules, rs[i].entry.protocol, address, port) {
      assert Asks(rs[i], rs[i].entry.protocol, address, port);
    }
    if rs[i].entry.ports != [] {
      assert Permits(rules, rs[i].entry.protocol, address, rs[i].entry.ports[0]);
    }
  }
}
