/** Planning: the cache listing, which stages of the chain are hits, and why the others miss. */
module BuildPlan {
  import opened Prelude
  import opened StageKeys
  import opened History
  import opened Host

  // ---- well-stamped entries -------------------------------------------------------------------

  function ParentOf(key: Key): Option<Key>
    requires key.Link?
  {
    if key.parent.Link? then Some(key.parent) else None
  }

  /** The stamps that `commit` writes for a key. */
  function StampsFor(key: Key, created: int): Stamps
    requires key.Link?
  {
    Stamps(key, key.name, ParentOf(key), SourceOf(key), created,
           if key.epoch.Some? then key.epoch.value.generation else 0,
           if key.epoch.Some? then key.epoch.value.stageGeneration else 0,
           AllowOf(key), key.script, key.declared)
  }

  predicate StampedAs(stamps: Stamps, key: Key) {
    key.Link? && Shaped(key) && stamps == StampsFor(key, stamps.created)
  }

  /** A finished cache entry: stopped, clean, stamped with its own key, and holding exactly
      the content that the key stands for. */
  predicate IsEntry(key: Key, i: Instance) {
    && i.guest.Off? && !i.pinned && i.root == map[]
    && i.stamps.Some? && StampedAs(i.stamps.value, key)
    && i.content == Denotes(key)
  }

  predicate Cached(w: World, key: Key) {
    CacheName(key) in w.instances
  }

  ghost predicate WellStamped(w: World) {
    forall key :: Cached(w, key) ==> IsEntry(key, w.instances[CacheName(key)])
  }

  // ---- the listing ----------------------------------------------------------------------------

  datatype CacheEntry = CacheEntry(stamps: Stamps, instance: Name)

  /** The listing is a dictionary in insertion order. */
  predicate Distinct(entries: seq<CacheEntry>) {
    forall i, j :: 0 <= i < j < |entries| ==> entries[i].stamps.key != entries[j].stamps.key
  }

  function Lookup(entries: seq<CacheEntry>, key: Key): (found: Option<CacheEntry>)
    ensures found.Some? ==> found.value in entries && found.value.stamps.key == key
    ensures found.None? ==> forall e :: e in entries ==> e.stamps.key != key
  {
    if entries == [] then None
    else if entries[0].stamps.key == key then Some(entries[0])
    else Lookup(entries[1..], key)
  }

  predicate HasEntry(entries: seq<CacheEntry>, key: Key) {
    Lookup(entries, key).Some?
  }

  lemma LookupMember(entries: seq<CacheEntry>, entry: CacheEntry)
    requires Distinct(entries) && entry in entries
    ensures Lookup(entries, entry.stamps.key) == Some(entry)
  {
  }

  /** `entries[entry.key] = entry` */
  function Insert(entries: seq<CacheEntry>, entry: CacheEntry): (r: seq<CacheEntry>)
    requires Distinct(entries)
    ensures Distinct(r)
    ensures forall e :: e in r <==> e == entry || (e in entries && e.stamps.key != entry.stamps.key)
  {
    if entries == [] then [entry]
    else
      assert forall e :: e in entries <==> e == entries[0] || e in entries[1..];
      if entries[0].stamps.key == entry.stamps.key then [entry] + entries[1..]
      else [entries[0]] + Insert(entries[1..], entry)
  }

  /** The listing shows exactly the cache-named instances of `w`, each under its own key. */
  ghost predicate ListingOf(w: World, entries: seq<CacheEntry>) {
    && Distinct(entries)
    && (forall e :: e in entries ==>
          && e.instance == CacheName(e.stamps.key) && e.instance in w.instances
          && w.instances[e.instance].stamps == Some(e.stamps))
    && (forall key :: Cached(w, key) ==> HasEntry(entries, key))
  }

  /** `ImageCache.entries`: one listing, in whatever order Incus returns it. Instances without
      stamps are skipped. */
  method ListEntries(incus: Incus) returns (ok: bool, entries: seq<CacheEntry>)
    ensures ok ==> Distinct(entries)
    ensures ok ==> forall e :: e in entries ==>
              e.instance.CacheName? && e.instance in incus.world.instances
              && incus.world.instances[e.instance].stamps == Some(e.stamps)
    ensures ok && WellStamped(incus.world) ==> ListingOf(incus.world, entries)
    ensures incus.able ==> ok
  {
    var w := incus.world;
    entries := [];
    ok := incus.Query();
    if !ok {
      return;
    }
    var todo := set n | n in w.instances.Keys && n.CacheName?;
    while todo != {}
      invariant forall n :: n in todo ==> n in w.instances && n.CacheName?
      invariant Distinct(entries)
      invariant forall e :: e in entries ==>
                  e.instance.CacheName? && e.instance in w.instances
                  && w.instances[e.instance].stamps == Some(e.stamps)
      invariant WellStamped(w) ==> forall key :: Cached(w, key) && CacheName(key) !in todo ==> HasEntry(entries, key)
      decreases todo
    {
      var n :| n in todo;
      todo := todo - {n};
      ghost var before := entries;
      if w.instances[n].stamps.Some? {
        var entry := CacheEntry(w.instances[n].stamps.value, n);
        entries := Insert(entries, entry);
        LookupMember(entries, entry);
        forall key | HasEntry(before, key) ensures HasEntry(entries, key) {
          var e := Lookup(before, key).value;
          if key == entry.stamps.key {
          } else {
            assert e in entries;
          }
        }
      }
    }
  }

  // ---- the steps of a plan -----------------------------------------------------------------------

  datatype Reason =
    | Hit | Published | NoCacheFlag | ParentChanged | NoEntry | SourceChanged
    | ScriptChanged | InputsChanged | GenerationBumped | AllowChanged

  datatype PlanStep = PlanStep(key: StageKey, hit: bool, reason: Reason, entry: Option<CacheEntry>)

  function Those(entries: seq<CacheEntry>, wanted: Stamps -> bool): (r: seq<CacheEntry>)
    ensures forall e :: e in r <==> e in entries && wanted(e.stamps)
  {
    if entries == [] then []
    else
      assert forall e :: e in entries <==> e == entries[0] || e in entries[1..];
      (if wanted(entries[0].stamps) then [entries[0]] else []) + Those(entries[1..], wanted)
  }

  function OfStage(entries: seq<CacheEntry>, stage: string): seq<CacheEntry> {
    Those(entries, (s: Stamps) => s.stage == stage)
  }

  /** The first entry with the greatest `created`. */
  function Newest(entries: seq<CacheEntry>): (r: CacheEntry)
    requires entries != []
    ensures r in entries
    ensures forall e :: e in entries ==> e.stamps.created <= r.stamps.created
  {
    assert forall e :: e in entries <==> e == entries[0] || e in entries[1..];
    if |entries| == 1 then entries[0]
    else
      var rest := Newest(entries[1..]);
      if entries[0].stamps.created < rest.stamps.created then rest else entries[0]
  }

  /** The entries a missing stage is compared with: same stage and same parent, or same source
      for the first stage. */
  function Siblings(key: StageKey, entries: seq<CacheEntry>, source: string): seq<CacheEntry> {
    var sameStage := OfStage(entries, key.stage.name);
    if key.parent.None? then Those(sameStage, (s: Stamps) => s.source == source)
    else Those(sameStage, (s: Stamps) => s.parent == key.parent)
  }

  function MissReason(key: StageKey, entries: seq<CacheEntry>, source: string, allow: seq<string>,
                      parentMissed: bool): Reason
  {
    if parentMissed then ParentChanged
    else if OfStage(entries, key.stage.name) == [] then NoEntry
    else if Siblings(key, entries, source) == [] then
      if key.parent.None? then SourceChanged else NoEntry
    else Compare(Newest(Siblings(key, entries, source)).stamps, key, allow)
  }

  function Compare(sibling: Stamps, key: StageKey, allow: seq<string>): Reason {
    if sibling.script != key.script then ScriptChanged
    else if sibling.inputs != key.inputs then InputsChanged
    else if sibling.generation != key.generation || sibling.stageGeneration != key.stageGeneration then
      GenerationBumped
    else if sibling.allow != allow then AllowChanged
    else NoEntry
  }

  predicate AllCached(keys: seq<StageKey>, entries: seq<CacheEntry>, n: nat)
    requires n <= |keys|
  {
    forall j :: 0 <= j < n ==> HasEntry(entries, keys[j].key)
  }

  /** What planning promises of step `i`: it is a hit exactly when it and every stage before it
      has an entry and the cache is in use. */
  predicate StepFor(keys: seq<StageKey>, entries: seq<CacheEntry>, source: string,
                    allow: seq<string>, noCache: bool, i: nat, step: PlanStep)
    requires i < |keys|
  {
    && step.key == keys[i]
    && (step.hit <==> !noCache && AllCached(keys, entries, i + 1))
    && step.entry == (if step.hit then Lookup(entries, keys[i].key) else None)
    && step.reason == (if step.hit then Hit
                       else if noCache then NoCacheFlag
                       else MissReason(keys[i], entries, source, allow, !AllCached(keys, entries, i)))
  }

  ghost predicate StepsFor(keys: seq<StageKey>, entries: seq<CacheEntry>, source: string,
                           allow: seq<string>, noCache: bool, steps: seq<PlanStep>)
  {
    && |steps| == |keys|
    && forall i :: 0 <= i < |steps| ==> StepFor(keys, entries, source, allow, noCache, i, steps[i])
  }

  method PlanSteps(keys: seq<StageKey>, entries: seq<CacheEntry>, source: string,
                   allow: seq<string>, noCache: bool)
    returns (steps: seq<PlanStep>)
    ensures StepsFor(keys, entries, source, allow, noCache, steps)
  {
    steps := [];
    var parentMissed := false;
    for i := 0 to |keys|
      invariant |steps| == i
      invariant forall j :: 0 <= j < i ==> StepFor(keys, entries, source, allow, noCache, j, steps[j])
      invariant parentMissed <==> i > 0 && (noCache || !AllCached(keys, entries, i))
    {
      var key := keys[i];
      var entry := if noCache then None else Lookup(entries, key.key);
      AllCachedNext(keys, entries, i);
      var step;
      if entry.Some? && !parentMissed {
        step := PlanStep(key, true, Hit, entry);
      } else {
        var reason := if noCache then NoCacheFlag else MissReason(key, entries, source, allow, parentMissed);
        step := PlanStep(key, false, reason, None);
        parentMissed := true;
      }
      assert StepFor(keys, entries, source, allow, noCache, i, step);
      steps := steps + [step];
    }
  }

  lemma AllCachedNext(keys: seq<StageKey>, entries: seq<CacheEntry>, i: nat)
    requires i < |keys|
    ensures AllCached(keys, entries, i + 1) <==> AllCached(keys, entries, i) && HasEntry(entries, keys[i].key)
  {
  }

  /** The number of leading hits. */
  function HitPrefix(steps: seq<PlanStep>): (n: nat)
    ensures n <= |steps|
    ensures forall i :: 0 <= i < n ==> steps[i].hit
    ensures n < |steps| ==> !steps[n].hit
  {
    if steps == [] || !steps[0].hit then 0 else 1 + HitPrefix(steps[1..])
  }

  lemma HitPrefixUnique(steps: seq<PlanStep>, n: nat)
    requires n <= |steps|
    requires forall i :: 0 <= i < n ==> steps[i].hit
    requires n < |steps| ==> !steps[n].hit
    ensures HitPrefix(steps) == n
  {
  }

  /** The index of the last leading hit, or -1. */
  method DeepestHit(steps: seq<PlanStep>) returns (index: int)
    ensures index == HitPrefix(steps) - 1
  {
    index := -1;
    var position := 0;
    while position < |steps|
      invariant 0 <= position <= |steps|
      invariant index == position - 1
      invariant forall i :: 0 <= i < position ==> steps[i].hit
    {
      if !steps[position].hit {
        break;
      }
      index := position;
      position := position + 1;
    }
    HitPrefixUnique(steps, index + 1);
  }

  // ---- the diagnosis names a real difference -------------------------------------------------------

  /** What two keys of the same stage really differ in, in the order the diagnosis asks. */
  function FirstDifference(a: Key, b: Key): Reason
    requires a.Link? && b.Link?
  {
    if a.script != b.script then ScriptChanged
    else if a.declared != b.declared then InputsChanged
    else if a.epoch.Some? && b.epoch.Some? then
      if a.epoch.value.generation != b.epoch.value.generation
         || a.epoch.value.stageGeneration != b.epoch.value.stageGeneration then GenerationBumped
      else if a.epoch.value.allow != b.epoch.value.allow then AllowChanged
      else NoEntry
    else NoEntry
  }

  predicate EntriesStamped(entries: seq<CacheEntry>) {
    forall e :: e in entries ==> StampedAs(e.stamps, e.stamps.key)
  }

  /** A key of the chain and a key of the same stage under the same parent carry the same build
      allowlist, unless the allowlist is part of both keys. */
  lemma FinalizeAllow(inputs: BuildInputs, i: nat, key: Key)
    requires i < |inputs.stages| && Loaded(inputs.stages)
    requires key.Link? && Shaped(key) && key.epoch.None? && key.name == inputs.stages[i].name
    requires key.parent == KeyAt(inputs, i).parent
    ensures AllowOf(key) == inputs.allow
  {
    KeyAtShaped(inputs, i);
    if i > 0 {
      AllowOfKeyAt(inputs, i - 1);
    }
  }

  lemma SiblingKey(inputs: BuildInputs, i: nat, entries: seq<CacheEntry>, e: CacheEntry)
    requires i < |inputs.stages| && Loaded(inputs.stages) && EntriesStamped(entries)
    requires e in Siblings(StageKeyAt(inputs, i), entries, inputs.fingerprint)
    ensures StampedAs(e.stamps, e.stamps.key) && e in entries
    ensures e.stamps.key.name == inputs.stages[i].name
    ensures i > 0 ==> e.stamps.key.parent == KeyAt(inputs, i - 1)
    ensures i == 0 ==> SourceOf(e.stamps.key) == inputs.fingerprint && e.stamps.key.epoch.Some?
  {
    var stage := inputs.stages[i].name;
    assert e in OfStage(entries, stage);
    assert StampedAs(e.stamps, e.stamps.key);
    if i > 0 {
      assert e.stamps.parent == Some(KeyAt(inputs, i - 1));
    } else {
      KeyAtShaped(inputs, 0);
    }
  }

  lemma CompareIsFirstDifference(inputs: BuildInputs, i: nat, sibling: Key, created: int)
    requires i < |inputs.stages| && Loaded(inputs.stages)
    requires sibling.Link? && Shaped(sibling) && sibling.name == inputs.stages[i].name
    requires sibling.epoch.None? ==> sibling.parent == KeyAt(inputs, i).parent
    ensures Compare(StampsFor(sibling, created), StageKeyAt(inputs, i), inputs.allow)
            == FirstDifference(sibling, KeyAt(inputs, i))
    ensures FirstDifference(sibling, KeyAt(inputs, i)) == NoEntry && sibling.parent == KeyAt(inputs, i).parent
            ==> sibling == KeyAt(inputs, i)
  {
    KeyAtShaped(inputs, i);
    if sibling.epoch.None? {
      FinalizeAllow(inputs, i, sibling);
    }
  }

  /** The key of the first stage, but grown on something else than the source. */
  predicate OtherRoot(key: Key, inputs: BuildInputs, i: nat)
    requires i < |inputs.stages| && key.Link?
  {
    var own := KeyAt(inputs, i);
    i == 0 && key.parent != own.parent && key == own.(parent := key.parent)
  }

  /** For the first missing stage of a well-stamped cache, the printed reason is exactly the
      first real difference between the stage's key and its newest sibling's key. The
      fall-through to "no entry" is left only for a first stage whose sibling grew on another
      root. */
  lemma MissDiagnosisExact(inputs: BuildInputs, i: nat, entries: seq<CacheEntry>)
    requires i < |inputs.stages| && Loaded(inputs.stages) && EntriesStamped(entries)
    requires !HasEntry(entries, KeyAt(inputs, i))
    requires Siblings(StageKeyAt(inputs, i), entries, inputs.fingerprint) != []
    ensures var sibling := Newest(Siblings(StageKeyAt(inputs, i), entries, inputs.fingerprint)).stamps.key;
            var reason := MissReason(StageKeyAt(inputs, i), entries, inputs.fingerprint, inputs.allow, false);
            && sibling.Link? && reason == FirstDifference(sibling, KeyAt(inputs, i))
            && (reason == NoEntry <==> OtherRoot(sibling, inputs, i))
  {
    var key := StageKeyAt(inputs, i);
    var e := Newest(Siblings(key, entries, inputs.fingerprint));
    SiblingKey(inputs, i, entries, e);
    SomeOfStage(key, entries, inputs.fingerprint);
    CompareIsFirstDifference(inputs, i, e.stamps.key, e.stamps.created);
    assert e.stamps.key != KeyAt(inputs, i);
  }

  lemma SomeOfStage(key: StageKey, entries: seq<CacheEntry>, source: string)
    requires Siblings(key, entries, source) != []
    ensures OfStage(entries, key.stage.name) != []
  {
    assert Siblings(key, entries, source)[0] in OfStage(entries, key.stage.name);
  }

  /** The first stage has only ever stood first, on one architecture for a source image. */
  predicate OneRoot(inputs: BuildInputs, entries: seq<CacheEntry>)
    requires |inputs.stages| > 0 && EntriesStamped(entries)
  {
    forall e | e in entries && e.stamps.source == inputs.fingerprint && e.stamps.stage == inputs.stages[0].name ::
      e.stamps.key.parent == SourceKey(inputs)
  }

  /** A miss with a sibling is explained, exactly unless the newest sibling is the first stage's key
      grown on another root: one of another architecture, or one that was not the first stage of its
      chain. Where neither occurs, every such miss is explained. */
  lemma MissAlwaysExplained(inputs: BuildInputs, i: nat, entries: seq<CacheEntry>)
    requires i < |inputs.stages| && Loaded(inputs.stages) && EntriesStamped(entries)
    requires !HasEntry(entries, KeyAt(inputs, i))
    requires Siblings(StageKeyAt(inputs, i), entries, inputs.fingerprint) != []
    ensures var sibling := Newest(Siblings(StageKeyAt(inputs, i), entries, inputs.fingerprint)).stamps.key;
            var reason := MissReason(StageKeyAt(inputs, i), entries, inputs.fingerprint, inputs.allow, false);
            && sibling.Link?
            && ((reason in {ScriptChanged, InputsChanged, GenerationBumped, AllowChanged})
                <==> !OtherRoot(sibling, inputs, i))
            && (OneRoot(inputs, entries) ==> !OtherRoot(sibling, inputs, i))
  {
    MissDiagnosisExact(inputs, i, entries);
    SiblingKey(inputs, i, entries, Newest(Siblings(StageKeyAt(inputs, i), entries, inputs.fingerprint)));
  }

  // ---- the diagnosis in terms of the listing -------------------------------------------------------

  /** The entry is of the stage, and grew where the stage does: on the same source image if it is the
      first of the chain, else on the entry before it. */
  predicate GrewHere(inputs: BuildInputs, i: nat, e: CacheEntry)
    requires i < |inputs.stages|
  {
    && e.stamps.stage == inputs.stages[i].name
    && if i == 0 then e.stamps.source == inputs.fingerprint else e.stamps.parent == Some(KeyAt(inputs, i - 1))
  }

  /** No entry that grew here is newer. */
  ghost predicate NewestHere(inputs: BuildInputs, i: nat, entries: seq<CacheEntry>, e: CacheEntry)
    requires i < |inputs.stages|
  {
    && e in entries && GrewHere(inputs, i, e)
    && forall other :: other in entries && GrewHere(inputs, i, other) ==> other.stamps.created <= e.stamps.created
  }

  lemma SiblingsGrewHere(inputs: BuildInputs, i: nat, entries: seq<CacheEntry>)
    requires i < |inputs.stages|
    ensures forall e :: e in Siblings(StageKeyAt(inputs, i), entries, inputs.fingerprint)
                        <==> e in entries && GrewHere(inputs, i, e)
    ensures forall e :: e in OfStage(entries, inputs.stages[i].name)
                        <==> e in entries && e.stamps.stage == inputs.stages[i].name
  {
    hide KeyAt;
  }

  /** What is printed for the first missing stage, for any listing: what its key really differs in from
      that of the newest entry that grew where it would; without such an entry, that the source changed
      if it is the first stage and has entries, and otherwise that there is none. */
  lemma DiagnosisOfListing(inputs: BuildInputs, i: nat, entries: seq<CacheEntry>)
    requires i < |inputs.stages| && Loaded(inputs.stages) && EntriesStamped(entries)
    requires !HasEntry(entries, KeyAt(inputs, i))
    ensures var reason := MissReason(StageKeyAt(inputs, i), entries, inputs.fingerprint, inputs.allow, false);
            if exists e :: e in entries && GrewHere(inputs, i, e) then
              exists e :: NewestHere(inputs, i, entries, e) && e.stamps.key.Link?
                          && reason == FirstDifference(e.stamps.key, KeyAt(inputs, i))
            else
              reason == if i == 0 && exists e :: e in entries && e.stamps.stage == inputs.stages[0].name
                        then SourceChanged else NoEntry
  {
    var key := StageKeyAt(inputs, i);
    var siblings, ofStage := Siblings(key, entries, inputs.fingerprint), OfStage(entries, inputs.stages[i].name);
    SiblingsGrewHere(inputs, i, entries);
    hide KeyAt, Siblings, OfStage, GrewHere, Shaped, FirstDifference, Compare;
    if siblings != [] {
      assert siblings[0] in siblings;
      MissDiagnosisExact(inputs, i, entries);
      assert NewestHere(inputs, i, entries, Newest(siblings));
    } else if ofStage != [] {
      assert ofStage[0] in ofStage;
    }
  }

  lemma PrefixIsCached(keys: seq<StageKey>, entries: seq<CacheEntry>, source: string, allow: seq<string>,
                       steps: seq<PlanStep>)
    requires StepsFor(keys, entries, source, allow, false, steps)
    ensures |steps| == |keys|
    ensures forall i :: 0 <= i <= |keys| ==> (AllCached(keys, entries, i) <==> i <= HitPrefix(steps))
  {
    hide MissReason, HasEntry;
    var n := HitPrefix(steps);
    if n > 0 {
      assert StepFor(keys, entries, source, allow, false, n - 1, steps[n - 1]);
    }
    if n < |keys| {
      assert StepFor(keys, entries, source, allow, false, n, steps[n]);
    }
    forall i | 0 <= i <= |keys| ensures AllCached(keys, entries, i) <==> i <= n {
      if n < |keys| {
        NotCachedFurther(keys, entries, n + 1, if i > n then i else n + 1);
      }
    }
  }

  lemma NotCachedFurther(keys: seq<StageKey>, entries: seq<CacheEntry>, n: nat, i: nat)
    requires n <= i <= |keys|
    ensures AllCached(keys, entries, i) ==> AllCached(keys, entries, n)
  {
    hide HasEntry;
  }

  /** The reasons a plan prints: those stages that have no entry are diagnosed only up to the first. */
  lemma ReasonsOfPlan(keys: seq<StageKey>, entries: seq<CacheEntry>, source: string, allow: seq<string>,
                      noCache: bool, steps: seq<PlanStep>, i: nat)
    requires StepsFor(keys, entries, source, allow, noCache, steps) && i < |steps|
    ensures steps[i].hit ==> steps[i].reason == Hit
    ensures noCache ==> !steps[i].hit && steps[i].reason == NoCacheFlag
    ensures !noCache && HitPrefix(steps) < i ==> !steps[i].hit && steps[i].reason == ParentChanged
    ensures !noCache && HitPrefix(steps) == i ==>
              && !HasEntry(entries, keys[i].key)
              && steps[i].reason == MissReason(keys[i], entries, source, allow, false)
  {
    assert StepFor(keys, entries, source, allow, noCache, i, steps[i]);
    if !noCache {
      PrefixIsCached(keys, entries, source, allow, steps);
      AllCachedNext(keys, entries, i);
    }
    hide StepsFor, HasEntry, AllCached, Siblings, OfStage;
  }
}
