/** Text encodings that the cache keys and the cache stamps rest on: parts closed by a
    terminator character, comma-joined host lists, and decimal numbers. */
module Framing {

  const NUL: char := '\0'
  const COMMA: char := ','

  /** Every part followed by the terminator: the byte stream that `_digest` hashes. */
  function Terminated(sep: char, parts: seq<string>): string {
    if parts == [] then "" else parts[0] + [sep] + Terminated(sep, parts[1..])
  }

  /** Splits a stream at the terminator; an unterminated tail is dropped. `part` is the
      text of the part being read. */
  function Parts(sep: char, text: string, part: string := ""): seq<string>
    decreases |text|
  {
    if text == "" then []
    else if text[0] == sep then [part] + Parts(sep, text[1..])
    else Parts(sep, text[1..], part + [text[0]])
  }

  predicate Free(sep: char, parts: seq<string>) {
    forall i :: 0 <= i < |parts| ==> sep !in parts[i]
  }

  lemma {:induction false} TerminatedAppend(sep: char, parts: seq<string>, last: string)
    ensures Terminated(sep, parts + [last]) == Terminated(sep, parts) + last + [sep]
  {
    if parts == [] {
      assert [last][1..] == [];
    } else {
      assert (parts + [last])[1..] == parts[1..] + [last];
      TerminatedAppend(sep, parts[1..], last);
    }
  }

  /** Feeding the parts one at a time, as the hash object is fed. */
  method Feed(parts: seq<string>) returns (stream: string)
    ensures stream == Terminated(NUL, parts)
  {
    stream := "";
    for i := 0 to |parts|
      invariant stream == Terminated(NUL, parts[..i])
    {
      TerminatedAppend(NUL, parts[..i], parts[i]);
      assert parts[..i + 1] == parts[..i] + [parts[i]];
      stream := stream + parts[i] + [NUL];
    }
    assert parts[..|parts|] == parts;
  }

  lemma {:induction false} PartsReadOne(sep: char, body: string, rest: string, part: string)
    requires sep !in body
    ensures Parts(sep, body + [sep] + rest, part) == [part + body] + Parts(sep, rest)
    decreases |body|
  {
    var text := body + [sep] + rest;
    if body == "" {
      assert text == [sep] + rest;
      assert text[1..] == rest;
      assert part + body == part;
    } else {
      assert text[1..] == body[1..] + [sep] + rest;
      PartsReadOne(sep, body[1..], rest, part + [body[0]]);
      assert part + [body[0]] + body[1..] == part + body;
    }
  }

  lemma {:induction false} PartsOfTerminated(sep: char, parts: seq<string>)
    requires Free(sep, parts)
    ensures Parts(sep, Terminated(sep, parts)) == parts
  {
    if parts != [] {
      PartsReadOne(sep, parts[0], Terminated(sep, parts[1..]), "");
      PartsOfTerminated(sep, parts[1..]);
      assert "" + parts[0] == parts[0];
    }
  }

  lemma {:induction false} PartsAreFree(sep: char, text: string, part: string)
    requires sep !in part
    ensures Free(sep, Parts(sep, text, part))
    decreases |text|
  {
    if text != "" {
      if text[0] == sep {
        PartsAreFree(sep, text[1..], "");
      } else {
        PartsAreFree(sep, text[1..], part + [text[0]]);
      }
    }
  }

  /** The framing is uniquely decodable exactly on parts without the terminator. */
  lemma FramingRoundTrip(sep: char, parts: seq<string>)
    ensures Parts(sep, Terminated(sep, parts)) == parts <==> Free(sep, parts)
  {
    if Free(sep, parts) {
      PartsOfTerminated(sep, parts);
    }
    PartsAreFree(sep, Terminated(sep, parts), "");
  }

  lemma TerminatedInjective(sep: char, a: seq<string>, b: seq<string>)
    requires Free(sep, a) && Free(sep, b)
    requires Terminated(sep, a) == Terminated(sep, b)
    ensures a == b
  {
    PartsOfTerminated(sep, a);
    PartsOfTerminated(sep, b);
  }

  /** The terminator inside a part really does make two part lists collide. */
  lemma TerminatorInsideAPartCollides()
    ensures Terminated(NUL, ["a\0b"]) == Terminated(NUL, ["a", "b"])
  {
    assert ["a", "b"][1..] == ["b"];
    assert ["b"][1..] == [];
    assert Terminated(NUL, ["b"]) == "b\0";
    assert ["a\0b"][1..] == [];
  }

  // ---- comma-joined host lists --------------------------------------------------------

  /** `",".join(hosts)` */
  function Join(hosts: seq<string>): string {
    if hosts == [] then ""
    else if |hosts| == 1 then hosts[0]
    else hosts[0] + [COMMA] + Join(hosts[1..])
  }

  function NonEmpty(parts: seq<string>): seq<string> {
    if parts == [] then []
    else (if parts[0] == "" then [] else [parts[0]]) + NonEmpty(parts[1..])
  }

  /** `tuple(host for host in text.split(",") if host)` */
  function Split(text: string): seq<string> {
    NonEmpty(Parts(COMMA, text + [COMMA]))
  }

  predicate HostList(hosts: seq<string>) {
    forall i :: 0 <= i < |hosts| ==> hosts[i] != "" && COMMA !in hosts[i]
  }

  lemma {:induction false} JoinIsTerminated(hosts: seq<string>)
    requires hosts != []
    ensures Join(hosts) + [COMMA] == Terminated(COMMA, hosts)
  {
    if |hosts| == 1 {
      assert hosts[1..] == [];
    } else {
      JoinIsTerminated(hosts[1..]);
      assert Join(hosts) + [COMMA] == hosts[0] + [COMMA] + (Join(hosts[1..]) + [COMMA]);
    }
  }

  lemma {:induction false} NonEmptyKeepsAll(parts: seq<string>)
    requires forall i :: 0 <= i < |parts| ==> parts[i] != ""
    ensures NonEmpty(parts) == parts
  {
    if parts != [] {
      NonEmptyKeepsAll(parts[1..]);
    }
  }

  lemma {:induction false} NonEmptyMembers(parts: seq<string>)
    ensures forall p :: p in NonEmpty(parts) <==> p in parts && p != ""
  {
    if parts != [] {
      NonEmptyMembers(parts[1..]);
      assert parts == [parts[0]] + parts[1..];
    }
  }

  /** The `build_allow` stamp reads back as the list it was written from exactly when every
      host is non-empty and free of commas. */
  lemma HostListRoundTrip(hosts: seq<string>)
    ensures Split(Join(hosts)) == hosts <==> HostList(hosts)
  {
    var parts := Parts(COMMA, Join(hosts) + [COMMA]);
    PartsAreFree(COMMA, Join(hosts) + [COMMA], "");
    NonEmptyMembers(parts);
    if Split(Join(hosts)) == hosts {
      forall i | 0 <= i < |hosts| ensures hosts[i] != "" && COMMA !in hosts[i] {
        assert hosts[i] in NonEmpty(parts);
      }
    }
    if HostList(hosts) {
      if hosts == [] {
        assert Join(hosts) + [COMMA] == [COMMA];
        assert [COMMA][1..] == "";
        assert parts == [""] + Parts(COMMA, "");
        assert [""][1..] == [];
      } else {
        JoinIsTerminated(hosts);
        PartsOfTerminated(COMMA, hosts);
        NonEmptyKeepsAll(hosts);
      }
    }
  }

  lemma {:induction false} JoinFree(sep: char, hosts: seq<string>)
    requires sep != COMMA && Free(sep, hosts)
    ensures sep !in Join(hosts)
  {
    if |hosts| > 1 {
      JoinFree(sep, hosts[1..]);
    }
  }

  /** Hosts are separated by single commas. */
  lemma JoinText(host: string, hosts: seq<string>)
    ensures Join([]) == "" && Join([host]) == host
    ensures hosts != [] ==> Join([host] + hosts) == host + "," + Join(hosts)
  {
    assert ([host] + hosts)[1..] == hosts;
  }

  // ---- decimal numbers ----------------------------------------------------------------

  function Digits(n: nat): (text: string)
    ensures |text| > 0
    ensures forall c :: c in text ==> '0' <= c <= '9'
  {
    var digit := ['0' + (n % 10) as char];
    if n < 10 then digit else Digits(n / 10) + digit
  }

  /** `str(n)` */
  function Decimal(n: int): string {
    if n < 0 then "-" + Digits(-n) else Digits(n)
  }

  function DigitsValue(text: string): int {
    if text == "" then 0
    else 10 * DigitsValue(text[..|text| - 1]) + (text[|text| - 1] as int - '0' as int)
  }

  function DecimalValue(text: string): int {
    if text != "" && text[0] == '-' then -DigitsValue(text[1..]) else DigitsValue(text)
  }

  lemma {:induction false} DigitsRoundTrip(n: nat)
    ensures DigitsValue(Digits(n)) == n
  {
    var text := Digits(n);
    var digit := '0' + (n % 10) as char;
    assert text[|text| - 1] == digit;
    if n < 10 {
      assert text[..|text| - 1] == "";
    } else {
      assert text[..|text| - 1] == Digits(n / 10);
      DigitsRoundTrip(n / 10);
    }
  }

  lemma DecimalRoundTrip(n: int)
    ensures DecimalValue(Decimal(n)) == n
  {
    if n < 0 {
      DigitsRoundTrip(-n);
      assert Decimal(n)[1..] == Digits(-n);
    } else {
      DigitsRoundTrip(n);
      assert Digits(n)[0] in Digits(n);
    }
  }

  lemma DecimalFree(n: int)
    ensures NUL !in Decimal(n)
  {
  }
}
