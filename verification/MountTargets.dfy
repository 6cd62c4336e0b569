/** Guest mount targets: explicit ones as given, the others derived from the source directory's
    name with the first free suffix. */
module MountTargets {
  import opened Prelude
  import opened Framing

  /** One entry of `dirs`, with its source resolved to an absolute path. */
  datatype Entry = Entry(source: string, name: string, readonly: bool, target: Option<string>)

  datatype Mount = Mount(source: string, target: string, readonly: bool)

  datatype Error = BadTarget | DuplicateTarget | NoRootMount | RootReadonly

  datatype Result = Ok(mounts: seq<Mount>) | Err(error: Error)

  function WithoutTrailingSlashes(text: string): string {
    if text != "" && text[|text| - 1] == '/' then WithoutTrailingSlashes(text[..|text| - 1]) else text
  }

  function NormalTarget(text: string): string {
    if WithoutTrailingSlashes(text) == "" then "/" else WithoutTrailingSlashes(text)
  }

  function Base(name: string): string {
    "/workspaces/" + if name == "" then "workspace" else name
  }

  /** The names tried for a directory: the plain one, then `-2`, `-3` and so on. */
  function Candidate(base: string, k: nat): string
    requires k >= 1
  {
    if k == 1 then base else base + "-" + Decimal(k)
  }

  lemma CandidatesDistinct(base: string, j: nat, k: nat)
    requires 1 <= j && 1 <= k && Candidate(base, j) == Candidate(base, k)
    ensures j == k
  {
    if j > 1 && k > 1 {
      assert Candidate(base, j)[|base| + 1..] == Decimal(j);
      assert Candidate(base, k)[|base| + 1..] == Decimal(k);
      DecimalRoundTrip(j);
      DecimalRoundTrip(k);
    }
  }

  /** The suffix search: it ends because every taken candidate uses up one of finitely many used
      targets, and it ends at the first candidate that is free. */
  method FirstFree(base: string, used: set<string>) returns (target: string, k: nat)
    ensures k >= 1 && target == Candidate(base, k) && target !in used
    ensures forall j :: 1 <= j < k ==> Candidate(base, j) in used
  {
    target := base;
    k := 1;
    var suffix := 2;
    ghost var left := used;
    while target in used
      invariant suffix == k + 1 && k >= 1 && target == Candidate(base, k)
      invariant forall j :: 1 <= j < k ==> Candidate(base, j) in used
      invariant left <= used
      invariant forall t :: t in used && t !in left ==> exists j :: 1 <= j < k && t == Candidate(base, j)
      decreases |left|
    {
      forall j | 1 <= j < k ensures Candidate(base, j) != target {
        if Candidate(base, j) == target {
          CandidatesDistinct(base, j, k);
        }
      }
      assert target in left;
      left := left - {target};
      target := base + "-" + Decimal(suffix);
      k := suffix;
      suffix := suffix + 1;
    }
  }

  predicate Explicit(e: Entry) {
    e.target.Some? && e.target.value != ""
  }

  /** An absolute path without a `..` component. */
  predicate GoodTarget(text: string) {
    text != "" && text[0] == '/' && ".." !in Parts('/', text + "/")
  }

  ghost predicate Taken(mounts: seq<Mount>, n: nat, target: string)
    requires n <= |mounts|
  {
    exists i :: 0 <= i < n && mounts[i].target == target
  }

  /** Mount `i` is what entry `i` asks for, given the mounts before it. */
  ghost predicate AssignedAt(entries: seq<Entry>, mounts: seq<Mount>, i: nat)
    requires i < |entries| && i < |mounts|
  {
    var e, m := entries[i], mounts[i];
    && m.source == e.source && m.readonly == e.readonly
    && !Taken(mounts, i, m.target)
    && (Explicit(e) ==> GoodTarget(e.target.value) && m.target == NormalTarget(e.target.value))
    && (!Explicit(e) ==>
          exists k: nat :: k >= 1 && m.target == Candidate(Base(e.name), k)
            && forall j :: 1 <= j < k ==> Taken(mounts, i, Candidate(Base(e.name), j)))
  }

  ghost predicate Assigned(entries: seq<Entry>, mounts: seq<Mount>) {
    |mounts| == |entries| && forall i :: 0 <= i < |mounts| ==> AssignedAt(entries, mounts, i)
  }

  ghost predicate MountsRoot(mounts: seq<Mount>, root: string) {
    exists i :: 0 <= i < |mounts| && mounts[i].source == root
  }

  /** The first mount of the project root is writable. */
  ghost predicate RootWritable(mounts: seq<Mount>, root: string) {
    exists i :: 0 <= i < |mounts| && mounts[i].source == root && !mounts[i].readonly
                && forall j :: 0 <= j < i ==> mounts[j].source != root
  }

  lemma AssignedGrows(entries: seq<Entry>, mounts: seq<Mount>, n: nat, mount: Mount)
    requires n < |entries| && Assigned(entries[..n], mounts)
    requires AssignedAt(entries, mounts + [mount], n)
    ensures Assigned(entries[..n + 1], mounts + [mount])
  {
    var after, shorter := mounts + [mount], entries[..n + 1];
    forall i | 0 <= i <= n ensures AssignedAt(shorter, after, i) {
      forall target ensures i <= |mounts| && Taken(after, i, target) <==> i <= |mounts| && Taken(mounts, i, target) {
        forall j | 0 <= j < i ensures after[j] == mounts[j] {
        }
      }
      if i < n {
        assert AssignedAt(entries[..n], mounts, i);
        assert entries[..n][i] == shorter[i];
      }
    }
  }

  /** `_parse_mounts` from the resolved entries on. */
  method AllocateTargets(entries: seq<Entry>, root: string) returns (r: Result)
    ensures r.Ok? ==> Assigned(entries, r.mounts) && RootWritable(r.mounts, root)
    ensures r.Err? ==>
              match r.error
              case BadTarget =>
                exists n, mounts :: 0 <= n < |entries| && Assigned(entries[..n], mounts) && Explicit(entries[n])
                                    && !GoodTarget(entries[n].target.value)
              case DuplicateTarget =>
                exists n, mounts :: 0 <= n < |entries| && Assigned(entries[..n], mounts) && Explicit(entries[n])
                                    && Taken(mounts, n, NormalTarget(entries[n].target.value))
              case NoRootMount => exists mounts :: Assigned(entries, mounts) && !MountsRoot(mounts, root)
              case RootReadonly =>
                exists mounts :: Assigned(entries, mounts) && MountsRoot(mounts, root) && !RootWritable(mounts, root)
  {
    var mounts: seq<Mount> := [];
    var used: set<string> := {};
    for n := 0 to |entries|
      invariant Assigned(entries[..n], mounts)
      invariant forall t :: t in used <==> Taken(mounts, n, t)
    {
      var e := entries[n];
      var target;
      if Explicit(e) {
        if !GoodTarget(e.target.value) {
          return Err(BadTarget);
        }
        target := NormalTarget(e.target.value);
        if target in used {
          return Err(DuplicateTarget);
        }
      } else {
        var k;
        target, k := FirstFree(Base(e.name), used);
      }
      ghost var before := mounts;
      var mount := Mount(e.source, target, e.readonly);
      mounts := mounts + [mount];
      forall t ensures Taken(mounts, n, t) <==> Taken(before, n, t) {
        forall j | 0 <= j < n ensures mounts[j] == before[j] {
        }
      }
      AssignedGrows(entries, before, n, mount);
      used := used + {target};
      forall t ensures t in used <==> Taken(mounts, n + 1, t) {
        if t == target {
          assert mounts[n].target == t;
        }
        if t in used && t != target {
          var i :| 0 <= i < n && before[i].target == t;
          assert mounts[i].target == t;
        }
      }
    }
    assert entries[..|entries|] == entries;
    for i := 0 to |mounts|
      invariant forall j :: 0 <= j < i ==> mounts[j].source != root
    {
      if mounts[i].source == root {
        return if mounts[i].readonly then Err(RootReadonly) else Ok(mounts);
      }
    }
    return Err(NoRootMount);
  }

  // ---- targets read as text ----------------------------------------------------------------------

  /** The stretch from `a` to `b`, between two slashes or an end of the path, reads `name`. */
  predicate ComponentAt(text: string, name: string, a: int, b: int) {
    && 0 <= a <= b <= |text| && text[a..b] == name
    && (a == 0 || text[a - 1] == '/') && (b == |text| || text[b] == '/')
  }

  ghost predicate HasComponent(text: string, name: string) {
    exists a, b :: ComponentAt(text, name, a, b)
  }

  /** The same, up to a slash that closes it. */
  ghost predicate HasClosed(text: string, name: string) {
    exists a, b :: b < |text| && ComponentAt(text, name, a, b)
  }

  lemma ClosedLater(part: string, rest: string, name: string, a: nat, b: nat)
    requires a <= b < |rest|
    ensures ComponentAt(rest, name, a, b)
            <==> ComponentAt(part + "/" + rest, name, a + |part| + 1, b + |part| + 1)
  {
    var text := part + "/" + rest;
    assert text[a + |part| + 1..b + |part| + 1] == rest[a..b];
    assert text[a + |part|] == if a == 0 then '/' else rest[a - 1];
  }

  lemma ClosedHere(part: string, rest: string, name: string, a: nat, b: nat)
    requires '/' !in part && '/' !in name
    requires a <= |part| && ComponentAt(part + "/" + rest, name, a, b)
    ensures name == part
  {
    var text := part + "/" + rest;
    assert forall k :: 0 <= k < |part| ==> text[k] == part[k] && text[k] in part;
    assert forall k :: a <= k < b ==> text[k] == name[k - a] && text[k] in name;
    assert text[|part|] == '/';
    assert text[0..|part|] == part;
  }

  lemma ClosedFirst(part: string, rest: string, name: string)
    requires '/' !in part && '/' !in name
    ensures HasClosed(part + "/" + rest, name) <==> name == part || HasClosed(rest, name)
  {
    var text, skip := part + "/" + rest, |part| + 1;
    if name == part {
      assert text[0..|part|] == name;
      assert ComponentAt(text, name, 0, |part|);
    }
    if HasClosed(rest, name) {
      var a, b :| b < |rest| && ComponentAt(rest, name, a, b);
      ClosedLater(part, rest, name, a, b);
    }
    if HasClosed(text, name) {
      var a, b :| b < |text| && ComponentAt(text, name, a, b);
      if a <= |part| {
        ClosedHere(part, rest, name, a, b);
      } else {
        ClosedLater(part, rest, name, a - skip, b - skip);
      }
    }
  }

  lemma NothingClosed(part: string, name: string)
    requires '/' !in part
    ensures !HasClosed(part, name)
  {
    forall a, b | b < |part| ensures !ComponentAt(part, name, a, b) {
      assert 0 <= b ==> part[b] in part;
    }
  }

  lemma {:induction false} PartsAreClosed(text: string, part: string, name: string)
    requires '/' !in part && '/' !in name
    ensures name in Parts('/', text, part) <==> HasClosed(part + text, name)
    decreases |text|
  {
    hide HasClosed, ComponentAt;
    if text == "" {
      assert part + text == part;
      NothingClosed(part, name);
    } else if text[0] == '/' {
      PartsAreClosed(text[1..], "", name);
      ClosedFirst(part, text[1..], name);
      assert part + text == part + "/" + text[1..] && "" + text[1..] == text[1..];
    } else {
      PartsAreClosed(text[1..], part + [text[0]], name);
      assert part + text == part + [text[0]] + text[1..];
    }
  }

  lemma ClosingSlash(text: string, name: string, a: int, b: int)
    requires b <= |text|
    ensures ComponentAt(text, name, a, b) <==> ComponentAt(text + "/", name, a, b)
  {
    if 0 <= a <= b {
      assert (text + "/")[a..b] == text[a..b];
    }
  }

  /** A target is accepted exactly if it starts with a slash and nothing in it goes up. */
  lemma GoodTargetExact(text: string)
    ensures GoodTarget(text) <==> text != "" && text[0] == '/' && !HasComponent(text, "..")
  {
    var closed := text + "/";
    PartsAreClosed(closed, "", "..");
    assert "" + closed == closed;
    if HasComponent(text, "..") {
      var a, b :| ComponentAt(text, "..", a, b);
      ClosingSlash(text, "..", a, b);
    }
    if HasClosed(closed, "..") {
      var a, b :| b < |closed| && ComponentAt(closed, "..", a, b);
      ClosingSlash(text, "..", a, b);
    }
  }

  lemma {:induction false} TrailingSlashesOnly(text: string)
    ensures var short := WithoutTrailingSlashes(text);
            && |short| <= |text| && text[..|short|] == short
            && (forall k :: |short| <= k < |text| ==> text[k] == '/')
            && (short != "" ==> short[|short| - 1] != '/')
  {
    if text != "" && text[|text| - 1] == '/' {
      TrailingSlashesOnly(text[..|text| - 1]);
    }
  }

  /** What each entry gets: a given target without its trailing slashes, or else the source's name under
      `/workspaces`, with a number if that is taken. An empty target counts as none. */
  lemma TargetsInFull(entries: seq<Entry>, mounts: seq<Mount>, i: nat)
    requires Assigned(entries, mounts) && i < |mounts|
    ensures mounts[i].source == entries[i].source && mounts[i].readonly == entries[i].readonly
    ensures entries[i].target.Some? && entries[i].target.value != "" ==>
              var text, target := entries[i].target.value, mounts[i].target;
              && text[0] == '/' && !HasComponent(text, "..")
              && 0 < |target| <= |text| && text[..|target|] == target
              && (forall k :: |target| <= k < |text| ==> text[k] == '/')
              && (target[|target| - 1] == '/' ==> target == "/")
    ensures entries[i].target.None? || entries[i].target.value == "" ==>
              var base := "/workspaces/" + if entries[i].name == "" then "workspace" else entries[i].name;
              || (mounts[i].target == base && !Taken(mounts, i, base))
              || (Taken(mounts, i, base)
                  && exists k: nat :: k >= 2 && mounts[i].target == base + "-" + Decimal(k)
                       && !Taken(mounts, i, mounts[i].target)
                       && forall j: nat :: 2 <= j < k ==> Taken(mounts, i, base + "-" + Decimal(j)))
  {
    var e := entries[i];
    assert AssignedAt(entries, mounts, i);
    if e.target.Some? && e.target.value != "" {
      GoodTargetExact(e.target.value);
      TrailingSlashesOnly(e.target.value);
    } else {
      var base := Base(e.name);
      var k: nat :| k >= 1 && mounts[i].target == Candidate(base, k)
                    && forall j :: 1 <= j < k ==> Taken(mounts, i, Candidate(base, j));
      if k > 1 {
        assert Taken(mounts, i, Candidate(base, 1));
        forall j: nat | 2 <= j < k ensures Taken(mounts, i, base + "-" + Decimal(j)) {
          assert Taken(mounts, i, Candidate(base, j));
        }
      }
    }
  }

  lemma AssignedDistinct(entries: seq<Entry>, mounts: seq<Mount>, i: nat, j: nat)
    requires Assigned(entries, mounts) && i < j < |mounts|
    ensures mounts[i].target != mounts[j].target
  {
    assert AssignedAt(entries, mounts, j);
  }

  /** The allocation is determined by the entries: no two assignments differ. */
  lemma {:induction false} AssignedUnique(entries: seq<Entry>, a: seq<Mount>, b: seq<Mount>, n: nat)
    requires Assigned(entries, a) && Assigned(entries, b) && n <= |entries|
    ensures a[..n] == b[..n]
  {
    hide GoodTarget, NormalTarget, Base, Candidate;
    if n > 0 {
      AssignedUnique(entries, a, b, n - 1);
      var i := n - 1;
      assert AssignedAt(entries, a, i) && AssignedAt(entries, b, i);
      forall t ensures Taken(a, i, t) <==> Taken(b, i, t) {
        forall j | 0 <= j < i ensures a[j] == b[j] {
          assert a[..i][j] == b[..i][j];
        }
      }
      if !Explicit(entries[i]) {
        var base := Base(entries[i].name);
        var k: nat :| k >= 1 && a[i].target == Candidate(base, k)
                      && forall j :: 1 <= j < k ==> Taken(a, i, Candidate(base, j));
        var l: nat :| l >= 1 && b[i].target == Candidate(base, l)
                      && forall j :: 1 <= j < l ==> Taken(b, i, Candidate(base, j));
        assert k == l;
      }
      assert a[..n] == a[..i] + [a[i]] && b[..n] == b[..i] + [b[i]];
    }
  }
}
