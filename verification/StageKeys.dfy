/** The key chain of an image build.

    A key is the hash of everything that went into a stage, starting with the key of the
    stage before it. Here a key is the term that was hashed; `Render` is the text the
    builder writes for it, for any hash, and `RenderInjective` says that for a
    collision-free hash the text and the term determine each other. */
module StageKeys {
  import opened Prelude
  import opened Framing

  const USER_STAGE := "30-user"
  const FINALIZE_STAGE := "90-finalize"

  const HELPER_FILES: seq<string> :=
    ["agent-init.sh", "instance-init.sh", "gpt-system-indicator.js", "gpt-system-prompt.md"]

  /** A stage script: its name (the file stem) and its content. */
  datatype Stage = Stage(name: string, script: string)

  /** The key material that a stage declares beyond its script. */
  datatype Declared =
    | NoInputs
    | UserIds(uid: int, gid: int)
    | Helpers(contents: seq<string>)

  /** `helpers` are the contents of the helper files, which the builder hashes. */
  datatype BuildInputs = BuildInputs(
    fingerprint: string, architecture: string, uid: int, gid: int, stages: seq<Stage>,
    helpers: seq<string>, allow: seq<string>, generation: int,
    stageGenerations: map<string, int>)

  datatype Epoch = Epoch(generation: int, stageGeneration: int, allow: seq<string>)

  datatype Key =
    | Source(fingerprint: string, architecture: string)
    | Link(parent: Key, name: string, script: string, declared: Declared, epoch: Option<Epoch>)

  datatype StageKey = StageKey(
    stage: Stage, key: Key, parent: Option<Key>, script: string, inputs: Declared,
    generation: int, stageGeneration: int)

  predicate Floating(name: string) {
    name != FINALIZE_STAGE
  }

  function DeclaredInputs(name: string, inputs: BuildInputs): Declared {
    if name == USER_STAGE then UserIds(inputs.uid, inputs.gid)
    else if name == FINALIZE_STAGE then Helpers(inputs.helpers)
    else NoInputs
  }

  function StageGeneration(name: string, inputs: BuildInputs): int {
    if name in inputs.stageGenerations then inputs.stageGenerations[name] else 0
  }

  function EpochOf(name: string, inputs: BuildInputs): Option<Epoch> {
    if Floating(name) then Some(Epoch(inputs.generation, StageGeneration(name, inputs), inputs.allow))
    else None
  }

  function SourceKey(inputs: BuildInputs): Key {
    Source(inputs.fingerprint, inputs.architecture)
  }

  /** The key of stage `i`. */
  function KeyAt(inputs: BuildInputs, i: nat): (key: Key)
    requires i < |inputs.stages|
    ensures key.Link? && key.name == inputs.stages[i].name
  {
    var stage := inputs.stages[i];
    Link(if i == 0 then SourceKey(inputs) else KeyAt(inputs, i - 1),
         stage.name, stage.script, DeclaredInputs(stage.name, inputs), EpochOf(stage.name, inputs))
  }

  function StageKeyAt(inputs: BuildInputs, i: nat): StageKey
    requires i < |inputs.stages|
  {
    var stage := inputs.stages[i];
    StageKey(stage, KeyAt(inputs, i), if i == 0 then None else Some(KeyAt(inputs, i - 1)),
             stage.script, DeclaredInputs(stage.name, inputs),
             if Floating(stage.name) then inputs.generation else 0,
             if Floating(stage.name) then StageGeneration(stage.name, inputs) else 0)
  }

  /** The chain, stage by stage, each key taking the one before it as its parent. */
  method ComputeStageKeys(inputs: BuildInputs) returns (keys: seq<StageKey>)
    ensures |keys| == |inputs.stages|
    ensures forall i :: 0 <= i < |keys| ==> keys[i] == StageKeyAt(inputs, i)
  {
    keys := [];
    var parent: Option<Key> := None;
    for i := 0 to |inputs.stages|
      invariant |keys| == i
      invariant forall j :: 0 <= j < i ==> keys[j] == StageKeyAt(inputs, j)
      invariant parent == if i == 0 then None else Some(KeyAt(inputs, i - 1))
    {
      var stage := inputs.stages[i];
      var declared := DeclaredInputs(stage.name, inputs);
      var floating := Floating(stage.name);
      var generation := if floating then inputs.generation else 0;
      var stageGeneration := if floating then StageGeneration(stage.name, inputs) else 0;
      var epoch := if floating then Some(Epoch(generation, stageGeneration, inputs.allow)) else None;
      var above := if parent.Some? then parent.value else SourceKey(inputs);
      var key := Link(above, stage.name, stage.script, declared, epoch);
      keys := keys + [StageKey(stage, key, parent, stage.script, declared, generation, stageGeneration)];
      parent := Some(key);
    }
  }

  /** What `load_stages` guarantees of a chain. */
  predicate Loaded(stages: seq<Stage>) {
    && |stages| > 0
    && "10-" <= stages[0].name
    && stages[|stages| - 1].name == FINALIZE_STAGE
    && forall i, j :: 0 <= i < j < |stages| ==> stages[i].name != stages[j].name
  }

  /** The stage declarations fix which fields a key has: only the user stage carries ids, only
      finalize carries helpers and no epoch, and a chain starts with a floating stage. */
  predicate Shaped(key: Key) {
    match key
    case Source(_, _) => true
    case Link(parent, name, _, declared, epoch) =>
      && Shaped(parent)
      && (name == USER_STAGE <==> declared.UserIds?)
      && (name == FINALIZE_STAGE <==> declared.Helpers?)
      && (Floating(name) <==> epoch.Some?)
      && (parent.Source? ==> Floating(name))
  }

  lemma {:induction false} KeyAtShaped(inputs: BuildInputs, i: nat)
    requires i < |inputs.stages| && Loaded(inputs.stages)
    ensures Shaped(KeyAt(inputs, i))
  {
    if i == 0 {
      assert inputs.stages[0].name[0] == '1';
    } else {
      KeyAtShaped(inputs, i - 1);
    }
  }

  // ---- the text of a key ----------------------------------------------------------------

  /** The two digests the builder takes: all of SHA-256, and its first 16 digits for keys. */
  datatype Hasher = Hasher(full: string -> string, short: string -> string)

  /** No two texts share a digest, digests hold no NUL, and a long one is never a short one. */
  ghost predicate CollisionFree(h: Hasher) {
    && (forall x, y :: h.full(x) == h.full(y) ==> x == y)
    && (forall x, y :: h.short(x) == h.short(y) ==> x == y)
    && (forall x, y :: h.full(x) != h.short(y))
    && (forall x :: NUL !in h.full(x))
    && (forall x :: NUL !in h.short(x))
  }

  function HelperParts(h: Hasher, contents: seq<string>): (parts: seq<string>)
    ensures |parts| == |contents|
    ensures forall i :: 0 <= i < |parts| ==> parts[i] == "helper=" + h.full(contents[i])
  {
    seq(|contents|, i requires 0 <= i < |contents| => "helper=" + h.full(contents[i]))
  }

  function DeclaredParts(h: Hasher, declared: Declared): seq<string> {
    match declared
    case NoInputs => []
    case UserIds(uid, gid) => ["uid=" + Decimal(uid), "gid=" + Decimal(gid)]
    case Helpers(contents) => HelperParts(h, contents)
  }

  function EpochParts(epoch: Option<Epoch>): seq<string> {
    match epoch
    case None => []
    case Some(e) => ["generation=" + Decimal(e.generation),
                     "stage-generation=" + Decimal(e.stageGeneration),
                     "build-allow=" + Join(e.allow)]
  }

  /** The parts that `_digest` receives for a stage key. */
  function Material(h: Hasher, key: Key): seq<string>
    requires key.Link?
    decreases key, 0
  {
    [Render(h, key.parent), key.name, h.full(key.script),
     h.full(Terminated(NUL, DeclaredParts(h, key.declared)))] + EpochParts(key.epoch)
  }

  function Render(h: Hasher, key: Key): string
    decreases key, 1
  {
    match key
    case Source(fingerprint, architecture) =>
      h.full(Terminated(NUL, ["source", fingerprint, architecture]))
    case Link(_, _, _, _, _) => h.short(Terminated(NUL, Material(h, key)))
  }

  lemma TerminatedNext(sep: char, part: string, rest: seq<string>)
    ensures Terminated(sep, [part] + rest) == part + [sep] + Terminated(sep, rest)
  {
    assert ([part] + rest)[1..] == rest;
  }

  /** The bytes that the declared inputs of a stage are hashed from: none, two numbers, or one line for each
      helper file. */
  lemma DeclaredText(h: Hasher, declared: Declared)
    ensures declared.NoInputs? ==> Terminated('\0', DeclaredParts(h, declared)) == ""
    ensures declared.UserIds? ==>
              Terminated('\0', DeclaredParts(h, declared))
              == "uid=" + Decimal(declared.uid) + "\0" + ("gid=" + Decimal(declared.gid)) + "\0"
    ensures declared.Helpers? ==>
              DeclaredParts(h, declared)
              == seq(|declared.contents|, i requires 0 <= i < |declared.contents| =>
                   "helper=" + h.full(declared.contents[i]))
  {
    if declared.UserIds? {
      var uid, gid := "uid=" + Decimal(declared.uid), "gid=" + Decimal(declared.gid);
      assert DeclaredParts(h, declared) == [uid] + ([gid] + []);
      TerminatedNext(NUL, uid, [gid]);
      TerminatedNext(NUL, gid, []);
    }
  }

  lemma ThreeParts(sep: char, a: string, b: string, c: string)
    ensures Terminated(sep, [a, b, c]) == a + [sep] + b + [sep] + c + [sep]
  {
    assert [a, b, c] == [a] + ([b] + ([c] + []));
    TerminatedNext(sep, a, [b] + ([c] + []));
    TerminatedNext(sep, b, [c] + []);
    TerminatedNext(sep, c, []);
  }

  lemma EpochText(epoch: Option<Epoch>)
    ensures epoch.None? ==> Terminated('\0', EpochParts(epoch)) == ""
    ensures epoch.Some? ==>
              Terminated('\0', EpochParts(epoch))
              == "generation=" + Decimal(epoch.value.generation) + "\0"
                 + ("stage-generation=" + Decimal(epoch.value.stageGeneration)) + "\0"
                 + ("build-allow=" + Join(epoch.value.allow)) + "\0"
  {
    if epoch.Some? {
      var p := EpochParts(epoch);
      ThreeParts(NUL, p[0], p[1], p[2]);
    }
  }

  /** The bytes that a key is hashed from, in order. */
  lemma KeyText(h: Hasher, key: Key)
    requires key.Link?
    ensures var declared := h.full(Terminated('\0', DeclaredParts(h, key.declared)));
            Render(h, key)
            == h.short(Render(h, key.parent) + "\0" + (key.name + "\0" + (h.full(key.script) + "\0"
                         + (declared + "\0" + Terminated('\0', EpochParts(key.epoch))))))
  {
    var parent, script := Render(h, key.parent), h.full(key.script);
    var declared, epoch := h.full(Terminated(NUL, DeclaredParts(h, key.declared))), EpochParts(key.epoch);
    hide DeclaredParts, EpochParts, Terminated;
    assert Material(h, key) == [parent] + ([key.name] + ([script] + ([declared] + epoch)));
    TerminatedNext(NUL, parent, [key.name] + ([script] + ([declared] + epoch)));
    TerminatedNext(NUL, key.name, [script] + ([declared] + epoch));
    TerminatedNext(NUL, script, [declared] + epoch);
    TerminatedNext(NUL, declared, epoch);
  }

  lemma SourceText(h: Hasher, fingerprint: string, architecture: string)
    ensures Render(h, Source(fingerprint, architecture))
            == h.full("source" + "\0" + fingerprint + "\0" + architecture + "\0")
  {
    ThreeParts(NUL, "source", fingerprint, architecture);
  }

  /** What the stage loader and the build allowlist guarantee about the texts in a key. */
  predicate KeyOk(key: Key) {
    match key
    case Source(fingerprint, architecture) => NUL !in fingerprint && NUL !in architecture
    case Link(parent, name, _, declared, epoch) =>
      && KeyOk(parent)
      && NUL !in name
      && (name == USER_STAGE <==> declared.UserIds?)
      && (name == FINALIZE_STAGE <==> declared.Helpers?)
      && (Floating(name) <==> epoch.Some?)
      && (epoch.Some? ==> HostList(epoch.value.allow) && Free(NUL, epoch.value.allow))
  }

  lemma DecimalInjective(a: int, b: int)
    requires Decimal(a) == Decimal(b)
    ensures a == b
  {
    DecimalRoundTrip(a);
    DecimalRoundTrip(b);
  }

  lemma PrefixInjective(prefix: string, a: string, b: string)
    requires prefix + a == prefix + b
    ensures a == b
  {
    assert (prefix + a)[|prefix|..] == a;
    assert (prefix + b)[|prefix|..] == b;
  }

  lemma DeclaredPartsInjective(h: Hasher, a: Declared, b: Declared)
    requires CollisionFree(h)
    requires a.NoInputs? == b.NoInputs? && a.UserIds? == b.UserIds?
    requires DeclaredParts(h, a) == DeclaredParts(h, b)
    ensures a == b
  {
    match a
    case NoInputs =>
    case UserIds(uid, gid) =>
      var p, q := DeclaredParts(h, a), DeclaredParts(h, b);
      assert p[0] == q[0] && p[1] == q[1];
      PrefixInjective("uid=", Decimal(uid), Decimal(b.uid));
      PrefixInjective("gid=", Decimal(gid), Decimal(b.gid));
      DecimalInjective(uid, b.uid);
      DecimalInjective(gid, b.gid);
    case Helpers(contents) =>
      var p, q := DeclaredParts(h, a), DeclaredParts(h, b);
      forall i | 0 <= i < |contents| ensures contents[i] == b.contents[i] {
        assert p[i] == q[i];
        PrefixInjective("helper=", h.full(contents[i]), h.full(b.contents[i]));
      }
  }

  lemma DeclaredPartsFree(h: Hasher, declared: Declared)
    requires CollisionFree(h)
    ensures Free(NUL, DeclaredParts(h, declared))
  {
    match declared
    case NoInputs =>
    case UserIds(uid, gid) =>
      DecimalFree(uid);
      DecimalFree(gid);
    case Helpers(contents) =>
  }

  lemma EpochPartsInjective(a: Option<Epoch>, b: Option<Epoch>)
    requires a.Some? ==> HostList(a.value.allow)
    requires b.Some? ==> HostList(b.value.allow)
    requires EpochParts(a) == EpochParts(b)
    ensures a == b
  {
    if a.Some? {
      var p, q := EpochParts(a), EpochParts(b);
      assert |p| == 3 && |q| == 3;
      assert p[0] == q[0] && p[1] == q[1] && p[2] == q[2];
      PrefixInjective("generation=", Decimal(a.value.generation), Decimal(b.value.generation));
      PrefixInjective("stage-generation=", Decimal(a.value.stageGeneration), Decimal(b.value.stageGeneration));
      PrefixInjective("build-allow=", Join(a.value.allow), Join(b.value.allow));
      DecimalInjective(a.value.generation, b.value.generation);
      DecimalInjective(a.value.stageGeneration, b.value.stageGeneration);
      HostListRoundTrip(a.value.allow);
      HostListRoundTrip(b.value.allow);
    }
  }

  lemma EpochPartsFree(epoch: Option<Epoch>)
    requires epoch.Some? ==> Free(NUL, epoch.value.allow)
    ensures Free(NUL, EpochParts(epoch))
  {
    if epoch.Some? {
      DecimalFree(epoch.value.generation);
      DecimalFree(epoch.value.stageGeneration);
      JoinFree(NUL, epoch.value.allow);
    }
  }

  lemma RenderFree(h: Hasher, key: Key)
    requires CollisionFree(h)
    ensures NUL !in Render(h, key)
  {
  }

  lemma MaterialFree(h: Hasher, key: Key)
    requires CollisionFree(h) && key.Link? && KeyOk(key)
    ensures Free(NUL, Material(h, key))
  {
    RenderFree(h, key.parent);
    EpochPartsFree(key.epoch);
    var m := Material(h, key);
    forall i | 0 <= i < |m| ensures NUL !in m[i] {
      if i >= 4 {
        assert m[i] == EpochParts(key.epoch)[i - 4];
      }
    }
  }

  /** For a collision-free hash, the text of a key determines everything that went into it. */
  lemma {:induction false} RenderInjective(h: Hasher, a: Key, b: Key)
    requires CollisionFree(h) && KeyOk(a) && KeyOk(b)
    requires Render(h, a) == Render(h, b)
    ensures a == b
  {
    if a.Source? {
      assert b.Source?;
      var p, q := ["source", a.fingerprint, a.architecture], ["source", b.fingerprint, b.architecture];
      TerminatedInjective(NUL, p, q);
      assert p[1] == q[1] && p[2] == q[2];
    } else {
      assert b.Link?;
      var p, q := Material(h, a), Material(h, b);
      MaterialFree(h, a);
      MaterialFree(h, b);
      TerminatedInjective(NUL, p, q);
      assert p[0] == q[0] && p[1] == q[1] && p[2] == q[2] && p[3] == q[3];
      assert p[4..] == EpochParts(a.epoch) && q[4..] == EpochParts(b.epoch);
      RenderInjective(h, a.parent, b.parent);
      EpochPartsInjective(a.epoch, b.epoch);
      DeclaredPartsFree(h, a.declared);
      DeclaredPartsFree(h, b.declared);
      TerminatedInjective(NUL, DeclaredParts(h, a.declared), DeclaredParts(h, b.declared));
      DeclaredPartsInjective(h, a.declared, b.declared);
    }
  }

  // ---- invalidation ---------------------------------------------------------------------

  /** What the loader and `build_allow_from_env` guarantee about the texts of the inputs. */
  predicate InputsOk(inputs: BuildInputs) {
    && NUL !in inputs.fingerprint && NUL !in inputs.architecture
    && (forall i :: 0 <= i < |inputs.stages| ==> NUL !in inputs.stages[i].name)
    && HostList(inputs.allow) && Free(NUL, inputs.allow)
  }

  /** Stage `j` looks the same from both sets of inputs. */
  predicate SameStage(a: BuildInputs, b: BuildInputs, j: nat)
    requires j < |a.stages| && j < |b.stages|
  {
    var name := a.stages[j].name;
    && b.stages[j].name == name
    && a.stages[j].script == b.stages[j].script
    && (name == USER_STAGE ==> a.uid == b.uid && a.gid == b.gid)
    && (name == FINALIZE_STAGE ==> a.helpers == b.helpers)
    && (Floating(name) ==>
          && a.generation == b.generation
          && StageGeneration(name, a) == StageGeneration(name, b)
          && a.allow == b.allow)
  }

  predicate SameUpTo(a: BuildInputs, b: BuildInputs, i: nat)
    requires i < |a.stages| && i < |b.stages|
  {
    && a.fingerprint == b.fingerprint && a.architecture == b.architecture
    && forall j :: 0 <= j <= i ==> SameStage(a, b, j)
  }

  lemma {:induction false} KeyAtOk(inputs: BuildInputs, i: nat)
    requires i < |inputs.stages| && InputsOk(inputs)
    ensures KeyOk(KeyAt(inputs, i))
  {
    if i > 0 {
      KeyAtOk(inputs, i - 1);
    }
  }

  lemma SameStageExact(a: BuildInputs, b: BuildInputs, i: nat)
    requires i < |a.stages| && i < |b.stages|
    ensures SameStage(a, b, i) <==>
            && KeyAt(a, i).name == KeyAt(b, i).name && KeyAt(a, i).script == KeyAt(b, i).script
            && KeyAt(a, i).declared == KeyAt(b, i).declared && KeyAt(a, i).epoch == KeyAt(b, i).epoch
  {
  }

  lemma {:induction false} KeyAtExact(a: BuildInputs, b: BuildInputs, i: nat)
    requires i < |a.stages| && i < |b.stages|
    ensures KeyAt(a, i) == KeyAt(b, i) <==> SameUpTo(a, b, i)
  {
    SameStageExact(a, b, i);
    if i > 0 {
      KeyAtExact(a, b, i - 1);
      assert SameUpTo(a, b, i) <==> SameUpTo(a, b, i - 1) && SameStage(a, b, i);
    }
  }

  /** Invalidation is exact: the key texts at a position agree if and only if the source and
      every stage up to that position agree in everything the stage reads. */
  lemma InvalidationExact(h: Hasher, a: BuildInputs, b: BuildInputs, i: nat)
    requires i < |a.stages| && i < |b.stages|
    requires CollisionFree(h) && InputsOk(a) && InputsOk(b)
    ensures Render(h, KeyAt(a, i)) == Render(h, KeyAt(b, i)) <==> SameUpTo(a, b, i)
  {
    KeyAtExact(a, b, i);
    KeyAtOk(a, i);
    KeyAtOk(b, i);
    if Render(h, KeyAt(a, i)) == Render(h, KeyAt(b, i)) {
      RenderInjective(h, KeyAt(a, i), KeyAt(b, i));
    }
  }

  function Depth(key: Key): nat {
    match key
    case Source(_, _) => 0
    case Link(parent, _, _, _, _) => 1 + Depth(parent)
  }

  lemma {:induction false} DepthOfKeyAt(inputs: BuildInputs, i: nat)
    requires i < |inputs.stages|
    ensures Depth(KeyAt(inputs, i)) == i + 1
  {
    if i > 0 {
      DepthOfKeyAt(inputs, i - 1);
    }
  }

  /** Keys at different positions differ, within one chain and between two chains. */
  lemma ChainKeysDistinct(a: BuildInputs, b: BuildInputs, i: nat, j: nat)
    requires i < |a.stages| && j < |b.stages| && i != j
    ensures KeyAt(a, i) != KeyAt(b, j)
  {
    DepthOfKeyAt(a, i);
    DepthOfKeyAt(b, j);
  }

  /** Two stages of one build never share a key text. */
  lemma ChainTextsDistinct(h: Hasher, inputs: BuildInputs, i: nat, j: nat)
    requires i < |inputs.stages| && j < |inputs.stages| && i != j
    requires CollisionFree(h) && InputsOk(inputs)
    ensures Render(h, KeyAt(inputs, i)) != Render(h, KeyAt(inputs, j))
  {
    ChainKeysDistinct(inputs, inputs, i, j);
    KeyAtOk(inputs, i);
    KeyAtOk(inputs, j);
    if Render(h, KeyAt(inputs, i)) == Render(h, KeyAt(inputs, j)) {
      RenderInjective(h, KeyAt(inputs, i), KeyAt(inputs, j));
    }
  }
}
