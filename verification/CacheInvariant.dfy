/** What holds of the host after every command of every build and prune, and why each kind of
    command keeps it. */
module CacheInvariant {
  import opened Prelude
  import opened StageKeys
  import opened History
  import opened Host
  import opened BuildPlan

  const SECOND := 1000000
  const DAY := 86400 * SECOND

  /** A published image that carries a build key holds the content the key stands for. */
  ghost predicate ImagesTrue(w: World) {
    forall alias :: alias in w.images && w.images[alias].key.Some?
      ==> w.images[alias].content == Denotes(w.images[alias].key.value)
  }

  /** No worker runs without the build ACL on its NIC. */
  ghost predicate Walled(w: World) {
    forall n :: n in w.instances && n.WorkerName? && !w.instances[n].guest.Off?
      ==> w.instances[n].acl && w.acl.Some?
  }

  ghost predicate Safe(w: World) {
    WellStamped(w) && ImagesTrue(w) && Walled(w)
  }

  /** Every entry's parent is an entry. */
  ghost predicate ParentClosed(w: World) {
    forall key :: Cached(w, key) && key.Link? && key.parent.Link? ==> Cached(w, key.parent)
  }

  /** Every entry's parent is an entry, and none of the entries of `origin` is gone. */
  ghost predicate Intact(origin: World, w: World) {
    ParentClosed(w) && forall key :: Cached(origin, key) ==> Cached(w, key)
  }

  /** The same but for one key: no other entry of `origin` is gone, and an entry without its parent
      is an old child of this one. */
  ghost predicate IntactBut(origin: World, w: World, gap: Key) {
    && (forall key :: Cached(origin, key) && key != gap ==> Cached(w, key))
    && (forall key :: Cached(w, key) && key.Link? && key.parent.Link? ==>
          Cached(w, key.parent) || (key.parent == gap && Cached(origin, key)))
  }

  /** The entries are those of `origin`, and closed. */
  ghost predicate Untouched(origin: World, w: World) {
    ParentClosed(w) && SameKeys(origin, w)
  }

  /** No entry of `origin` is gone, or one of these is. */
  ghost predicate OneGap(origin: World, w: World, among: iset<Key>) {
    Intact(origin, w) || exists gap :: gap in among && IntactBut(origin, w, gap)
  }

  /** The entry of this key may be deleted and made anew: no entry later than `origin` is its child. */
  ghost predicate Replaceable(origin: World, w: World, gap: Key) {
    Intact(origin, w) && forall key :: Cached(w, key) && key.Link? && key.parent == gap ==> Cached(origin, key)
  }

  ghost predicate SameKeys(w: World, w': World) {
    forall k :: Cached(w', k) <==> Cached(w, k)
  }

  lemma GapStays(origin: World, w: World, w': World, among: iset<Key>)
    requires OneGap(origin, w, among) && SameKeys(w, w')
    ensures OneGap(origin, w', among)
  {
    if !Intact(origin, w) {
      var gap :| gap in among && IntactBut(origin, w, gap);
      assert IntactBut(origin, w', gap);
    }
  }

  lemma SameKeysIntact(origin: World, w: World, w': World)
    requires Intact(origin, w) && SameKeys(w, w')
    ensures Intact(origin, w')
  {
  }

  lemma IntactIsIntactBut(origin: World, w: World, gap: Key)
    requires Intact(origin, w)
    ensures IntactBut(origin, w, gap)
  {
  }

  lemma IntactHasNoGap(origin: World, w: World, among: iset<Key>)
    requires Intact(origin, w)
    ensures OneGap(origin, w, among)
  {
  }

  function GenerationOf(manifest: Manifest, stage: string): int {
    if stage in manifest.stageGenerations then manifest.stageGenerations[stage] else 0
  }

  /** Which generations are compared: those of the stages, which no command lowers, or also the
      global one, which `--generation` may. */
  datatype Extent = OfStages | OfAll

  predicate AtMost(epoch: Epoch, stage: string, manifest: Manifest, extent: Extent) {
    && (extent.OfAll? ==> epoch.generation <= manifest.generation)
    && epoch.stageGeneration <= GenerationOf(manifest, stage)
  }

  /** No stage of the key's chain carries a later generation than the manifest. */
  predicate Within(key: Key, manifest: Manifest, extent: Extent) {
    match key
    case Source(_, _) => true
    case Link(parent, name, _, _, epoch) =>
      Within(parent, manifest, extent) && (epoch.Some? ==> AtMost(epoch.value, name, manifest, extent))
  }

  /** Neither an entry nor a published image is newer than the manifest. */
  ghost predicate NoneNewer(w: World, manifest: Manifest, extent: Extent) {
    && (forall key :: Cached(w, key) ==> Within(key, manifest, extent))
    && (forall alias :: alias in w.images && w.images[alias].key.Some?
          ==> Within(w.images[alias].key.value, manifest, extent))
  }

  /** No generation of `m'` is below that of `m`. */
  ghost predicate Rising(m: Manifest, m': Manifest, extent: Extent) {
    && (extent.OfAll? ==> m.generation <= m'.generation)
    && forall stage :: GenerationOf(m, stage) <= GenerationOf(m', stage)
  }

  lemma {:induction false} WithinRises(key: Key, m: Manifest, m': Manifest, extent: Extent)
    requires Within(key, m, extent) && Rising(m, m', extent)
    ensures Within(key, m', extent)
  {
    if key.Link? {
      WithinRises(key.parent, m, m', extent);
    }
  }

  lemma {:induction false} WithinOfStages(key: Key, m: Manifest)
    requires Within(key, m, OfAll)
    ensures Within(key, m, OfStages)
  {
    if key.Link? {
      WithinOfStages(key.parent, m);
    }
  }

  lemma NoneNewerOfStages(w: World, m: Manifest)
    requires NoneNewer(w, m, OfAll)
    ensures NoneNewer(w, m, OfStages)
  {
    forall key | Cached(w, key) ensures Within(key, m, OfStages) {
      WithinOfStages(key, m);
    }
    forall alias | alias in w.images && w.images[alias].key.Some?
      ensures Within(w.images[alias].key.value, m, OfStages)
    {
      WithinOfStages(w.images[alias].key.value, m);
    }
  }

  lemma {:induction false} KeyAtWithin(inputs: BuildInputs, i: nat, manifest: Manifest)
    requires i < |inputs.stages|
    requires inputs.generation == manifest.generation && inputs.stageGenerations == manifest.stageGenerations
    ensures Within(KeyAt(inputs, i), manifest, OfAll) && Within(KeyAt(inputs, i), manifest, OfStages)
  {
    if i > 0 {
      KeyAtWithin(inputs, i - 1, manifest);
    }
  }

  /** The stages of an entry followed each other without long pauses: the first was stamped
      within `span` of its start, each later one within `ceiling + span` of the one before. */
  ghost predicate PacedLine(line: seq<int>, ceiling: int, span: int) {
    && |line| >= 2
    && line[1] - line[0] <= span
    && forall j :: 1 <= j < |line| - 1 ==> line[j + 1] - line[j] <= ceiling + span
  }

  ghost predicate PacedEntry(key: Key, i: Instance, ceiling: int, span: int) {
    && |i.lineage| == Depth(key) + 1
    && PacedLine(i.lineage, ceiling, span)
    && i.stamps.Some? && i.lineage[|i.lineage| - 1] == i.stamps.value.created
  }

  ghost predicate Paced(w: World, ceiling: int, span: int) {
    forall key :: Cached(w, key) ==> PacedEntry(key, w.instances[CacheName(key)], ceiling, span)
  }

  /** Instances that are neither cache entries nor workers, such as project VMs, are the same. */
  ghost predicate BystandersKept(w: World, w': World) {
    && (forall n: Name :: n.OtherName? ==> (n in w'.instances <==> n in w.instances))
    && (forall n: Name :: n.OtherName? && n in w.instances ==> w'.instances[n] == w.instances[n])
  }

  /** One build started at `start`, over reused entries at most `ceiling` old, of at most `span`. */
  datatype Pace = Pace(ceiling: int, span: int, start: int)

  /** What a build or prune promises to keep after each of its commands: a parent-closed cache that
      has lost nothing, or one with at most one gap, among the keys that it may replace; generations
      within the manifest's; a pace; and the instances that are none of its business. */
  datatype Promise = Promise(
    closed: bool, holed: bool, among: iset<Key>, bound: Option<Extent>, pace: Option<Pace>, origin: World)

  ghost predicate Holds(p: Promise, w: World) {
    && Safe(w)
    && (p.closed ==> Intact(p.origin, w))
    && (p.holed ==> OneGap(p.origin, w, p.among))
    && (p.bound.Some? ==> NoneNewer(w, w.manifest, p.bound.value))
    && (p.pace.Some? && w.now <= p.pace.value.start + p.pace.value.span
        ==> Paced(w, p.pace.value.ceiling, p.pace.value.span))
    && BystandersKept(p.origin, w)
  }

  ghost predicate SameEntries(w: World, w': World) {
    && (forall key :: Cached(w', key) <==> Cached(w, key))
    && (forall key :: Cached(w, key) ==> w'.instances[CacheName(key)] == w.instances[CacheName(key)])
  }

  lemma TouchedWorker(w: World, w': World, n: Name)
    requires OnlyTouches(w, w', n) && n.WorkerName?
    ensures SameEntries(w, w') && BystandersKept(w, w')
    ensures forall m :: m != n ==> (m in w'.instances <==> m in w.instances)
    ensures forall m :: m != n && m in w.instances ==> w'.instances[m] == w.instances[m]
  {
    OthersKept(w, w', n);
  }

  lemma OthersKept(w: World, w': World, n: Name)
    requires OnlyTouches(w, w', n)
    ensures forall m :: m != n ==> (m in w'.instances <==> m in w.instances)
    ensures forall m :: m != n && m in w.instances ==> w'.instances[m] == w.instances[m]
  {
    forall m | m != n ensures m in w'.instances <==> m in w.instances {
      assert m in w'.instances - {n} <==> m in w.instances - {n};
    }
    forall m | m != n && m in w.instances ensures w'.instances[m] == w.instances[m] {
      assert (w'.instances - {n})[m] == (w.instances - {n})[m];
    }
  }

  /** Commands on a worker keep every promise as long as the worker is not left running
      outside the ACL. */
  lemma WorkerCommandKeeps(p: Promise, w: World, w': World, n: Name)
    requires Holds(p, w) && OnlyTouches(w, w', n) && n.WorkerName?
    requires n in w'.instances && !w'.instances[n].guest.Off? ==> w'.instances[n].acl && w'.acl.Some?
    ensures Holds(p, w')
  {
    TouchedWorker(w, w', n);
    if p.holed {
      GapStays(p.origin, w, w', p.among);
    }
  }

  /** The discipline on single commands: start only behind the ACL, detach only when stopped. */
  ghost predicate Disciplined(w: World, n: Name, e: Edit) {
    && (e.Start? && n in w.instances ==> w.instances[n].acl && w.acl.Some?)
    && (e.Detach? && n in w.instances ==> w.instances[n].guest.Off?)
  }

  lemma DisciplinedKeeps(p: Promise, w: World, w': World, n: Name, e: Edit, ok: bool)
    requires Holds(p, w) && Applied(w, w', n, e, ok) && n.WorkerName? && Disciplined(w, n, e)
    ensures Holds(p, w')
  {
    if n in w'.instances && !w'.instances[n].guest.Off? {
      if w'.instances != w.instances {
        assert Edited(w, w.instances[n], e).Some?;
      }
    }
    WorkerCommandKeeps(p, w, w', n);
  }

  /** Saving a manifest that lowers no generation. */
  lemma SaveManifestKeeps(p: Promise, w: World, w': World)
    requires Holds(p, w) && w' == w.(manifest := w'.manifest, now := w'.now) && w'.now >= w.now
    requires p.bound.Some? ==> Rising(w.manifest, w'.manifest, p.bound.value)
    ensures Holds(p, w')
  {
    if p.holed {
      GapStays(p.origin, w, w', p.among);
    }
    if p.bound.Some? {
      var extent := p.bound.value;
      forall key | Cached(w, key) ensures Within(key, w'.manifest, extent) {
        WithinRises(key, w.manifest, w'.manifest, extent);
      }
      forall alias | alias in w.images && w.images[alias].key.Some?
        ensures Within(w.images[alias].key.value, w'.manifest, extent)
      {
        WithinRises(w.images[alias].key.value, w.manifest, w'.manifest, extent);
      }
    }
  }

  /** ACL commands: the ACL may go only while no instance names it. */
  lemma AclCommandKeeps(p: Promise, w: World, w': World)
    requires Holds(p, w) && w' == w.(acl := w'.acl, now := w'.now) && w'.now >= w.now
    requires w'.acl.None? && w.acl.Some? ==> !AclInUse(w)
    ensures Holds(p, w')
  {
    if p.holed {
      GapStays(p.origin, w, w', p.among);
    }
  }

  /** Publishing an entry under its own key. */
  lemma PublishKeeps(p: Promise, w: World, w': World, alias: string, key: Key)
    requires Holds(p, w) && Cached(w, key) && Publishable(w, CacheName(key))
    requires w' == w.(images := w'.images, now := w'.now) && w'.now >= w.now
    requires w'.images == Reused(w, CacheName(key), alias, key)
    ensures Holds(p, w')
    ensures w'.images == w.images[alias := Image(Some(key), Denotes(key))]
  {
    if p.holed {
      GapStays(p.origin, w, w', p.among);
    }
  }

  /** Commands that had no effect. */
  lemma IdleKeeps(p: Promise, w: World, w': World)
    requires Holds(p, w) && w'.instances == w.instances && SameHost(w, w')
    ensures Holds(p, w')
  {
    if p.holed {
      GapStays(p.origin, w, w', p.among);
    }
  }

  /** Detaching the ACL from a stopped entry. */
  lemma DetachEntryKeeps(p: Promise, w: World, w': World, key: Key, ok: bool)
    requires Holds(p, w) && Applied(w, w', CacheName(key), Detach, ok)
    ensures Holds(p, w')
    ensures forall k :: Cached(w', k) <==> Cached(w, k)
  {
    hide StampedAs, Denotes, Within, PacedLine, Intact, OneGap;
    OthersKept(w, w', CacheName(key));
    if p.closed {
      SameKeysIntact(p.origin, w, w');
    }
    if p.holed {
      GapStays(p.origin, w, w', p.among);
    }
  }

  /** Deleting an entry; only a promise of closure can be broken by it. */
  lemma DeleteEntryKeeps(p: Promise, w: World, w': World, key: Key)
    requires Holds(p, w) && OnlyTouches(w, w', CacheName(key))
    requires w'.instances == w.instances || w'.instances == w.instances - {CacheName(key)}
    requires !p.closed && (p.holed ==> Replaceable(p.origin, w, key) && key in p.among)
    ensures Holds(p, w')
    ensures p.holed ==> IntactBut(p.origin, w', key)
  {
    OthersKept(w, w', CacheName(key));
    assert p.holed ==> IntactBut(p.origin, w', key);
  }

  /** The new entry fits the promise it is committed under. */
  ghost predicate Welcome(p: Promise, w: World, key: Key, i: Instance) {
    && IsEntry(key, i)
    && ((p.closed || p.holed) && key.parent.Link? ==> Cached(w, key.parent))
    && (p.holed ==> IntactBut(p.origin, w, key))
    && (p.bound.Some? ==> Within(key, w.manifest, p.bound.value))
    && (p.pace.Some? && w.now <= p.pace.value.start + p.pace.value.span
        ==> PacedEntry(key, i, p.pace.value.ceiling, p.pace.value.span))
  }

  /** The new entry closes the gap in its own place. */
  lemma FilledGap(origin: World, w: World, w': World, key: Key)
    requires IntactBut(origin, w, key) && (key.Link? && key.parent.Link? ==> Cached(w, key.parent))
    requires forall k :: Cached(w', k) <==> k == key || Cached(w, k)
    ensures Intact(origin, w')
  {
  }

  /** `w'` has one entry more than `w`, the instance that a worker was; nothing else is different. */
  ghost predicate EntryAdded(w: World, w': World, key: Key, entry: Instance) {
    && SameHost(w, w') && !Cached(w, key)
    && (forall k :: Cached(w', k) <==> k == key || Cached(w, k))
    && (forall k :: Cached(w, k) ==> w'.instances[CacheName(k)] == w.instances[CacheName(k)])
    && Cached(w', key) && w'.instances[CacheName(key)] == entry
    && (forall n :: n in w'.instances && n.WorkerName? ==> n in w.instances && w'.instances[n] == w.instances[n])
    && BystandersKept(w, w')
  }

  lemma RenameAddsEntry(w: World, w': World, worker: Name, key: Key)
    requires worker.WorkerName? && worker in w.instances && !Cached(w, key)
    requires SameHost(w, w') && w'.instances == w.instances[CacheName(key) := w.instances[worker]] - {worker}
    ensures EntryAdded(w, w', key, w.instances[worker])
  {
  }

  lemma AddedIsSafe(w: World, w': World, key: Key, entry: Instance)
    requires Safe(w) && EntryAdded(w, w', key, entry) && IsEntry(key, entry)
    ensures Safe(w')
  {
    hide IsEntry, Denotes;
  }

  lemma AddedIsBound(w: World, w': World, key: Key, entry: Instance, extent: Extent)
    requires NoneNewer(w, w.manifest, extent) && EntryAdded(w, w', key, entry) && Within(key, w.manifest, extent)
    ensures NoneNewer(w', w'.manifest, extent)
  {
    hide Within;
  }

  lemma AddedIsPaced(w: World, w': World, key: Key, entry: Instance, ceiling: int, span: int)
    requires Paced(w, ceiling, span) && EntryAdded(w, w', key, entry) && PacedEntry(key, entry, ceiling, span)
    ensures Paced(w', ceiling, span)
  {
    hide PacedEntry;
  }

  lemma AddedKeepsOthers(origin: World, w: World, w': World, key: Key, entry: Instance)
    requires BystandersKept(origin, w) && EntryAdded(w, w', key, entry)
    ensures BystandersKept(origin, w') && SameHost(w, w')
    ensures forall k :: Cached(w', k) <==> k == key || Cached(w, k)
    ensures forall k :: k != key && Cached(w, k) ==> w'.instances[CacheName(k)] == w.instances[CacheName(k)]
    ensures w'.instances[CacheName(key)] == entry
  {
  }

  lemma AddedIsIntact(origin: World, w: World, w': World, key: Key, entry: Instance)
    requires Intact(origin, w) && EntryAdded(w, w', key, entry)
    requires key.Link? && key.parent.Link? ==> Cached(w, key.parent)
    ensures Intact(origin, w')
  {
  }

  /** Renaming a finished worker into place: the visibility point. */
  lemma CommitKeeps(p: Promise, w: World, w': World, worker: Name, key: Key)
    requires Holds(p, w) && worker.WorkerName? && worker in w.instances && !Cached(w, key)
    requires SameHost(w, w') && w'.instances == w.instances[CacheName(key) := w.instances[worker]] - {worker}
    requires Welcome(p, w, key, w.instances[worker])
    ensures Holds(p, w')
    ensures forall k :: k != key ==> (Cached(w', k) <==> Cached(w, k))
    ensures forall k :: k != key && Cached(w, k) ==> w'.instances[CacheName(k)] == w.instances[CacheName(k)]
    ensures Cached(w', key) && w'.instances[CacheName(key)] == w.instances[worker]
    ensures p.holed ==> Intact(p.origin, w')
  {
    hide Safe, Intact, NoneNewer, Paced, BystandersKept, OneGap, IntactBut, EntryAdded, IsEntry, Cached, Within;
    hide PacedEntry;
    var entry := w.instances[worker];
    RenameAddsEntry(w, w', worker, key);
    AddedKeepsOthers(p.origin, w, w', key, entry);
    AddedIsSafe(w, w', key, entry);
    if p.closed {
      AddedIsIntact(p.origin, w, w', key, entry);
    }
    if p.holed {
      FilledGap(p.origin, w, w', key);
      IntactHasNoGap(p.origin, w', p.among);
    }
    if p.bound.Some? {
      AddedIsBound(w, w', key, entry, p.bound.value);
    }
    if p.pace.Some? && w'.now <= p.pace.value.start + p.pace.value.span {
      AddedIsPaced(w, w', key, entry, p.pace.value.ceiling, p.pace.value.span);
    }
  }
}
