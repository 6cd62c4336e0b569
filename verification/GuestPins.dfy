/** What a policy pins in a guest: one line of `/etc/hosts` for each address, between the markers. */
module GuestPins {
  import opened AclPolicy
  import opened HostsBlock

  /** The line of one address that is pinned for one recorded host. */
  ghost predicate IsPinLine(resolutions: map<string, seq<string>>, line: string) {
    exists host, address ::
      host in resolutions && address in PinnedAddresses(host, resolutions[host]) && line == address + " " + host
  }

  /** Host names are checked for white space, and addresses have none. */
  ghost predicate Spaceless(resolutions: map<string, seq<string>>) {
    forall host :: host in resolutions ==> ' ' !in host && forall a :: a in resolutions[host] ==> ' ' !in a
  }

  function LinesFor(host: string, addresses: seq<string>): (lines: seq<string>)
    ensures forall line :: line in lines <==> exists a :: a in addresses && line == a + " " + host
  {
    var lines := seq(|addresses|, i requires 0 <= i < |addresses| => addresses[i] + " " + host);
    assert forall i :: 0 <= i < |addresses| ==> lines[i] == addresses[i] + " " + host && addresses[i] in addresses;
    lines
  }

  /** The lines of all hosts; the order of the hosts is left open. */
  method PinLines(resolutions: map<string, seq<string>>) returns (lines: seq<string>)
    ensures forall line :: line in lines <==> IsPinLine(resolutions, line)
  {
    lines := [];
    var todo := resolutions.Keys;
    while todo != {}
      invariant todo <= resolutions.Keys
      invariant forall line :: line in lines <==>
                  exists host, address :: host in resolutions.Keys - todo
                    && address in PinnedAddresses(host, resolutions[host]) && line == address + " " + host
      decreases todo
    {
      var host :| host in todo;
      lines := lines + LinesFor(host, PinnedAddresses(host, resolutions[host]));
      todo := todo - {host};
    }
  }

  lemma TwoSpaces(line: string, marker: string, p: nat, q: nat)
    requires Mentions(line, marker) && p < q < |marker| && marker[p] == ' ' && marker[q] == ' '
    ensures exists i, j :: 0 <= i < j < |line| && line[i] == ' ' && line[j] == ' '
  {
    var k: nat :| At(line, k, marker);
    assert line[k..k + |marker|][p] == line[k + p] && line[k..k + |marker|][q] == line[k + q];
  }

  /** A line with one space mentions no text with two. */
  lemma OneSpace(address: string, host: string, marker: string, p: nat, q: nat)
    requires ' ' !in address && ' ' !in host && p < q < |marker| && marker[p] == ' ' && marker[q] == ' '
    ensures !Mentions(address + " " + host, marker)
  {
    var line := address + " " + host;
    assert forall j :: 0 <= j < |address| ==> line[j] == address[j] && line[j] in address;
    assert forall j :: |address| < j < |line| ==> line[j] == host[j - |address| - 1] && line[j] in host;
    hide Mentions, At;
    if Mentions(line, marker) {
      TwoSpaces(line, marker, p, q);
    }
  }

  /** No pinned line is taken for a marker. */
  lemma LineMentionsNoMarker(resolutions: map<string, seq<string>>, line: string)
    requires Spaceless(resolutions) && IsPinLine(resolutions, line)
    ensures !Mentions(line, PIN_BEGIN) && !Mentions(line, PIN_END)
  {
    hide Mentions, PinnedAddresses;
    var host, address :|
      host in resolutions && address in PinnedAddresses(host, resolutions[host]) && line == address + " " + host;
    PinnedExactly(host, resolutions[host], address);
    OneSpace(address, host, PIN_BEGIN, 1, 7);
    OneSpace(address, host, PIN_END, 1, 5);
  }

  lemma LinesMentionNoMarker(resolutions: map<string, seq<string>>, lines: seq<string>)
    requires Spaceless(resolutions) && forall line :: line in lines ==> IsPinLine(resolutions, line)
    ensures NoneMention(lines, PIN_END)
  {
    forall i | 0 <= i < |lines| ensures !Mentions(lines[i], PIN_END) {
      assert lines[i] in lines;
      LineMentionsNoMarker(resolutions, lines[i]);
    }
  }

  /** `pin_allowlist`: the block holds one line for each pinned address of each recorded host and no
      other; and whatever is written after it, `unpin_allowlist` takes exactly the block away, with the
      line that it ran into if there is one. */
  method PinAllowlist(file: File, resolutions: map<string, seq<string>>) returns (r: File, lines: seq<string>)
    requires Spaceless(resolutions)
    ensures forall line :: line in lines <==> IsPinLine(resolutions, line)
    ensures r == File(Unpinned(file).lines + [Unpinned(file).tail + "# BEGIN sandboxsh allowlist"] + lines
                      + ["# END sandboxsh allowlist"], "")
    ensures forall later :: NoneMention(later, PIN_BEGIN) ==>
              Unpinned(Append(r, later)) == File(Unpinned(file).lines + later, "")
  {
    lines := PinLines(resolutions);
    r := Pin(file, lines);
    PinnedHolds(file, lines);
    LinesMentionNoMarker(resolutions, lines);
    forall later | NoneMention(later, PIN_BEGIN)
      ensures Unpinned(Append(r, later)) == File(Unpinned(file).lines + later, "")
    {
      UnpinAfterPin(file, lines, later);
    }
  }
}
