/** What holds of the state between operations, in every run. */
module UsdStageInvariant {
  import opened Wrappers
  import opened UsdStageModel

  // ---------------------------------------------------------------- loading

  /** `whole` has every version of `part`. */
  ghost predicate Extends(part: map<Path, FileStamp>, whole: map<Path, FileStamp>) {
    forall p :: p in part ==> p in whole && whole[p] == part[p]
  }

  lemma {:induction false} LoadReads(usd: Usd, key: StageKey, view: map<Path, FileStamp>,
                                     read: map<Path, FileStamp>, missing: set<Path>)
    requires Extends(read, view)
    requires missing !! view.Keys
    ensures var (r, m) := LoadLayers(usd, key, view, read, missing);
            Extends(read, r) && Extends(r, view) && missing <= m && m !! view.Keys
    decreases view.Keys - read.Keys
  {
    var want := usd.wanted(key, read);
    var more := Unread(want, view, read);
    var absent := missing + Absent(want, view, read);
    if more != map[] {
      assert exists p :: p in more;
      assert absent !! view.Keys;
      LoadReads(usd, key, view, read + more, absent);
    }
  }

  /** Loading depends on nothing but the versions it reads and the assets it misses, although what it reads decides
      what it asks for next. */
  lemma {:induction false} LoadAgrees(usd: Usd, key: StageKey, view: map<Path, FileStamp>,
                                      other: map<Path, FileStamp>, read: map<Path, FileStamp>, missing: set<Path>)
    requires Extends(read, view) && missing !! view.Keys
    requires var (r, m) := LoadLayers(usd, key, view, read, missing); Extends(r, other) && m !! other.Keys
    ensures LoadLayers(usd, key, other, read, missing) == LoadLayers(usd, key, view, read, missing)
    decreases view.Keys - read.Keys
  {
    LoadReads(usd, key, view, read, missing);
    var (r, m) := LoadLayers(usd, key, view, read, missing);
    var want := usd.wanted(key, read);
    var more := Unread(want, view, read);
    var absent := missing + Absent(want, view, read);
    if more == map[] {
      forall p | p in want && p !in read ensures p !in view && p !in other {
        assert p !in more;
        assert p in absent;
      }
      assert Unread(want, other, read) == map[];
    } else {
      assert exists p :: p in more;
      LoadReads(usd, key, view, read + more, absent);
      forall p | p in want && p !in read ensures p in view <==> p in other {
        assert p in more || p in absent;
      }
      assert forall p :: p in more ==> p in r;
      assert more == Unread(want, other, read);
      LoadAgrees(usd, key, view, other, read + more, absent);
    }
    assert absent == missing + Absent(want, other, read);
  }

  /** Two views that agree on what a stage read, and both lack what it missed, compose the same stage. */
  lemma ComposeAgrees(usd: Usd, key: StageKey, view: map<Path, FileStamp>, other: map<Path, FileStamp>)
    requires Compose(usd, key, view).Some?
    requires var (r, m) := Compose(usd, key, view).value; Extends(r, other) && m !! other.Keys
    ensures Compose(usd, key, other) == Compose(usd, key, view)
  {
    LoadReads(usd, key, view, map[key.root := view[key.root]], {});
    assert key.root in map[key.root := view[key.root]];
    LoadAgrees(usd, key, view, other, map[key.root := view[key.root]], {});
  }

  /** What a composition reads is what its view has; what it misses, its view lacks. */
  lemma ComposeReads(usd: Usd, key: StageKey, view: map<Path, FileStamp>)
    requires Compose(usd, key, view).Some?
    ensures var (r, m) := Compose(usd, key, view).value; key.root in r && Extends(r, view) && m !! view.Keys
  {
    var read := map[key.root := view[key.root]];
    LoadReads(usd, key, view, read, {});
    assert key.root in read;
  }

  /** What was asked for at some point, having read no more than `read`. */
  ghost predicate WasWanted(usd: Usd, key: StageKey, read: map<Path, FileStamp>, p: Path) {
    exists part :: Extends(part, read) && p in usd.wanted(key, part)
  }

  lemma {:induction false} LoadIsClosed(usd: Usd, key: StageKey, view: map<Path, FileStamp>,
                                        read: map<Path, FileStamp>, missing: set<Path>)
    requires Extends(read, view) && missing !! view.Keys
    ensures var (r, m) := LoadLayers(usd, key, view, read, missing);
            && (forall p :: p in usd.wanted(key, r) ==> p in r || p in m)
            && (forall p :: (p in r && p !in read) || (p in m && p !in missing) ==> WasWanted(usd, key, r, p))
    decreases view.Keys - read.Keys
  {
    LoadReads(usd, key, view, read, missing);
    var (r, m) := LoadLayers(usd, key, view, read, missing);
    var want := usd.wanted(key, read);
    var more := Unread(want, view, read);
    var absent := missing + Absent(want, view, read);
    assert Extends(read, r);
    if more == map[] {
      forall p | p in want && p !in read ensures p !in view { assert p !in more; }
    } else {
      assert exists p :: p in more;
      LoadIsClosed(usd, key, view, read + more, absent);
    }
  }

  /** A composition reads or misses whatever it asks for once it has read all of its layers, and nothing but its root
      layer and what it asked for on the way. */
  lemma ComposeIsClosed(usd: Usd, key: StageKey, view: map<Path, FileStamp>)
    requires Compose(usd, key, view).Some?
    ensures var (r, m) := Compose(usd, key, view).value;
            && (forall p :: p in usd.wanted(key, r) ==> p in r || p in m)
            && (forall p :: p in r.Keys + m && p != key.root ==> WasWanted(usd, key, r, p))
  {
    LoadIsClosed(usd, key, view, map[key.root := view[key.root]], {});
  }

  // ---------------------------------------------------------------- the invariant

  /** The stage is what composing from just its own layers gives. */
  ghost predicate WellComposed(usd: Usd, stage: Stage) {
    Compose(usd, stage.key, Versions(stage)) == Some((Versions(stage), stage.missing))
  }

  /** Those of `layers` that were read from another version of their file than the current one. */
  function OutOfDate(files: map<Path, FileStamp>, layers: map<Path, Layer>): map<Path, Layer> {
    map p | p in layers && layers[p].stamp != StampOf(files, p) :: layers[p]
  }

  /** `layers` are the copies that are in memory. */
  ghost predicate InMemory(layers: map<Path, Layer>, live: map<Path, Layer>) {
    forall p :: p in layers ==> p in live && live[p] == layers[p]
  }

  /** Each layer in memory is a readable version of its file, and the stamp table has the stamp it was read at. */
  ghost predicate LayersInv(usd: Usd, s: State) {
    && (forall p :: p in s.live ==> p in s.stamps && s.stamps[p] == s.live[p])
    && (forall p :: p in s.live ==> Readable(usd, p, s.live[p].stamp))
    && (forall p :: p in s.stamps ==> s.stamps[p].load < s.loads)
  }

  ghost predicate HandleInv(usd: Usd, live: map<Path, Layer>, nextId: nat, h: Handle) {
    h.id < nextId && InMemory(h.stage.layers, live) && WellComposed(usd, h.stage)
  }

  ghost predicate HandlesInv(usd: Usd, s: State) {
    forall h :: h in Handles(s) ==> HandleInv(usd, s.live, s.nextId, h)
  }

  ghost predicate EntryInv(usd: Usd, s: State, slot: Slot, e: Entry) {
    && e.id < s.nextId && e.lastUsed <= s.clock
    && WeakEntry(slot, e.id) in s.registry
    && (e.handle.Some? ==> e.handle.value.stage.key == slot.key && e.missing.Keys == e.handle.value.stage.missing)
    && (forall p :: p in e.missing ==> !Readable(usd, p, e.missing[p]))
  }

  ghost predicate CachesInv(usd: Usd, s: State) {
    && (forall slot :: slot in s.caches ==> EntryInv(usd, s, slot, s.caches[slot]))
    && (forall a, b :: a in s.caches && b in s.caches && a != b ==>
          s.caches[a].id != s.caches[b].id && s.caches[a].lastUsed != s.caches[b].lastUsed)
  }

  ghost predicate RegistryInv(s: State) {
    && (forall w :: w in s.registry ==> w.id < s.nextId)
    && (forall i, j :: 0 <= i < j < |s.registry| ==> s.registry[i] != s.registry[j])
  }

  ghost predicate RecentInv(s: State) {
    forall k :: k in s.recent ==> s.recent[k].stage.key == k.1 && s.recent[k].id < s.nextId
  }

  ghost predicate Inv(usd: Usd, s: State) {
    LayersInv(usd, s) && HandlesInv(usd, s) && CachesInv(usd, s) && RegistryInv(s) && RecentInv(s)
  }

  // ---------------------------------------------------------------- what keeps it

  /** `caches` has entries of `before` only, some of them released. */
  ghost predicate Fewer(caches: map<Slot, Entry>, before: map<Slot, Entry>) {
    forall slot :: slot in caches ==>
      slot in before && (caches[slot] == before[slot] || caches[slot] == before[slot].(handle := None))
  }

  lemma FewerHandles(s: State, before: State)
    requires Fewer(s.caches, before.caches) && s.scans <= before.scans
    ensures Handles(s) <= Handles(before)
  {
  }

  lemma FewerCaches(usd: Usd, s: State, before: State)
    requires CachesInv(usd, before) && Fewer(s.caches, before.caches)
    requires s.registry == before.registry && s.nextId == before.nextId && s.clock == before.clock
    ensures CachesInv(usd, s)
  {
    hide Readable;
    forall slot | slot in s.caches ensures EntryInv(usd, s, slot, s.caches[slot]) {
      assert EntryInv(usd, before, slot, before.caches[slot]);
    }
  }

  /** Dropping and releasing entries, ending scans and forgetting weak pointers keep the invariant. */
  lemma FewerKeeps(usd: Usd, s: State, before: State)
    requires Inv(usd, before)
    requires Fewer(s.caches, before.caches) && s.scans <= before.scans
    requires forall k :: k in s.recent ==> k in before.recent && s.recent[k] == before.recent[k]
    requires s.live == before.live && s.loads == before.loads && s.stamps == before.stamps
    requires s.registry == before.registry && s.nextId == before.nextId && s.clock == before.clock
    ensures Inv(usd, s)
  {
    FewerHandles(s, before);
    FewerCaches(usd, s, before);
    hide HandleInv, CachesInv, Handles, Fewer;
    assert LayersInv(usd, s) && RegistryInv(s) && RecentInv(s);
    assert HandlesInv(usd, s);
  }

  lemma CollectKeeps(usd: Usd, s: State)
    requires Inv(usd, s)
    ensures Inv(usd, Collect(s))
    ensures Handles(Collect(s)) == Handles(s)
  {
    var c := Collect(s);
    assert Handles(c) == Handles(s);
    forall h | h in Handles(c) ensures HandleInv(usd, c.live, c.nextId, h) {
      assert HandleInv(usd, s.live, s.nextId, h);
    }
    forall slot | slot in c.caches ensures EntryInv(usd, c, slot, c.caches[slot]) {
      assert EntryInv(usd, s, slot, s.caches[slot]);
    }
  }

  lemma ReleaseIsFewer(caches: map<Slot, Entry>, db: nat, changed: map<Path, Layer>)
    ensures Fewer(Release(caches, db, changed), caches)
  {
  }

  lemma {:induction false} WithoutFirstIsFewer(caches: map<Slot, Entry>, db: nat, cs: seq<Cached>, n: nat)
    requires n <= |cs|
    ensures Fewer(WithoutFirst(caches, db, cs, n), caches)
    ensures forall slot :: slot in WithoutFirst(caches, db, cs, n) ==>
              WithoutFirst(caches, db, cs, n)[slot] == caches[slot]
  {
    if n == 0 {
    } else {
      WithoutFirstIsFewer(caches, db, cs, n - 1);
    }
  }

  lemma RecordSeen(usd: Usd, s: State, layers: map<Path, Layer>)
    requires LayersInv(usd, s) && InMemory(layers, s.live)
    ensures RecordLayers(s, layers) == s
    ensures ChangedLayers(s, layers) == OutOfDate(s.files, layers)
  {
    assert forall p :: p in layers ==> Seen(s.stamps, p, layers[p]);
    assert NewStamps(s, layers) == map[];
  }

  /** Changing the files, and nothing else, keeps the invariant: it does not speak of them. */
  lemma FilesKeep(usd: Usd, s: State, files: map<Path, FileStamp>)
    requires Inv(usd, s)
    ensures Inv(usd, s.(files := files))
  {
  }

  lemma LetGoKeeps(usd: Usd, s: State, db: nat, changed: map<Path, Layer>)
    requires Inv(usd, s)
    ensures Inv(usd, LetGo(s, db, changed))
    ensures LetGo(s, db, changed).files == s.files && LetGo(s, db, changed).scans == s.scans
  {
    var t := s.(caches := Release(s.caches, db, changed));
    ReleaseIsFewer(s.caches, db, changed);
    FewerKeeps(usd, t, s);
    CollectKeeps(usd, t);
  }

  /** A stage just opened: it takes the layers that are in memory from there, and reads the others from their files. */
  lemma OpenStageReads(usd: Usd, s: State, key: StageKey)
    requires OpenStage(usd, s, key).Some?
    ensures var (s1, stage) := OpenStage(usd, s, key).value;
            && stage.key == key && WellComposed(usd, stage)
            && (forall p :: p in stage.layers && p in s.live ==> stage.layers[p] == s.live[p])
            && (forall p :: p in stage.layers && p !in s.live ==>
                  stage.layers[p] == Layer(s.loads, StampOf(s.files, p)) && Readable(usd, p, StampOf(s.files, p)))
            && (forall p :: p in stage.missing ==> p !in s.live && !Readable(usd, p, StampOf(s.files, p)))
  {
    var (s1, stage) := OpenStage(usd, s, key).value;
    var view := Visible(usd, s.files, s.live);
    var (versions, missing) := Compose(usd, key, view).value;
    ComposeReads(usd, key, view);
    assert Versions(stage) == versions;
    ComposeAgrees(usd, key, view, versions);
    forall p | p in stage.missing ensures p !in s.live && !Readable(usd, p, StampOf(s.files, p)) {
      assert p !in view;
    }
    forall p | p in stage.layers && p !in s.live
      ensures stage.layers[p] == Layer(s.loads, StampOf(s.files, p)) && Readable(usd, p, StampOf(s.files, p))
    {
      assert p in versions && p in view;
    }
  }

  /** `layers` are in memory, or were just read by this load. */
  ghost predicate JustRead(usd: Usd, s: State, layers: map<Path, Layer>) {
    && (forall p :: p in layers && p in s.live ==> layers[p] == s.live[p])
    && (forall p :: p in layers && p !in s.live ==>
          layers[p] == Layer(s.loads, StampOf(s.files, p)) && Readable(usd, p, StampOf(s.files, p)))
  }

  function WithLayers(s: State, layers: map<Path, Layer>): State {
    s.(live := s.live + layers, loads := s.loads + 1)
  }

  lemma NewStampsJustRead(usd: Usd, s: State, layers: map<Path, Layer>)
    requires LayersInv(usd, s) && JustRead(usd, s, layers)
    ensures NewStamps(WithLayers(s, layers), layers) == map p | p in layers && p !in s.live :: layers[p]
  {
  }

  lemma RecordJustRead(usd: Usd, s: State, layers: map<Path, Layer>)
    requires LayersInv(usd, s) && JustRead(usd, s, layers)
    ensures LayersInv(usd, RecordLayers(WithLayers(s, layers), layers))
  {
    NewStampsJustRead(usd, s, layers);
    var t := RecordLayers(WithLayers(s, layers), layers);
    var added := NewStamps(WithLayers(s, layers), layers);
    assert t.stamps == s.stamps + added && t.live == s.live + layers;
    forall p | p in t.live ensures p in t.stamps && t.stamps[p] == t.live[p] && Readable(usd, p, t.live[p].stamp) {
      if p in s.live { assert p !in added; } else { assert p in added; }
    }
    forall p | p in t.stamps ensures t.stamps[p].load < t.loads {
      if p in added { assert added[p].load == s.loads; }
    }
  }

  lemma ChangedJustRead(usd: Usd, s: State, layers: map<Path, Layer>)
    requires LayersInv(usd, s) && JustRead(usd, s, layers)
    ensures ChangedLayers(WithLayers(s, layers), layers) == OutOfDate(s.files, layers)
  {
    var s1 := WithLayers(s, layers);
    forall p | p in layers
      ensures Seen(s1.stamps, p, layers[p]) && s1.stamps[p].stamp != StampOf(s.files, p) <==>
              layers[p].stamp != StampOf(s.files, p)
    {
    }
  }

  /** Looking for changed layers right after a stage was opened leaves every layer in memory with the stamp it was read
      at, and finds exactly the layers that are out of date. */
  lemma OpenStageRecords(usd: Usd, s: State, key: StageKey)
    requires LayersInv(usd, s)
    requires OpenStage(usd, s, key).Some?
    ensures var (s1, stage) := OpenStage(usd, s, key).value;
            var s2 := RecordLayers(s1, stage.layers);
            && LayersInv(usd, s2) && InMemory(stage.layers, s2.live) && InMemory(s.live, s2.live)
            && ChangedLayers(s1, stage.layers) == OutOfDate(s.files, stage.layers)
            && s2 == s.(live := s.live + stage.layers, loads := s.loads + 1, stamps := s2.stamps)
  {
    hide WellComposed, Readable, Compose, StampOf;
    var (s1, stage) := OpenStage(usd, s, key).value;
    OpenStageReads(usd, s, key);
    assert s1 == WithLayers(s, stage.layers);
    RecordJustRead(usd, s, stage.layers);
    ChangedJustRead(usd, s, stage.layers);
  }

  lemma OpenStageKeeps(usd: Usd, s: State, key: StageKey)
    requires Inv(usd, s)
    requires OpenStage(usd, s, key).Some?
    ensures var (s1, stage) := OpenStage(usd, s, key).value;
            Inv(usd, RecordLayers(s1, stage.layers))
  {
    var (s1, stage) := OpenStage(usd, s, key).value;
    OpenStageRecords(usd, s, key);
    var s2 := RecordLayers(s1, stage.layers);
    assert Handles(s2) == Handles(s);
    forall h | h in Handles(s2) ensures HandleInv(usd, s2.live, s2.nextId, h) {
      assert HandleInv(usd, s.live, s.nextId, h);
    }
    forall slot | slot in s2.caches ensures EntryInv(usd, s2, slot, s2.caches[slot]) {
      assert EntryInv(usd, s, slot, s.caches[slot]);
    }
  }

  /** A new handle to a stage that is in memory, held by a scan. */
  lemma HoldKeeps(usd: Usd, s: State, r: Request, h: Handle)
    requires Inv(usd, s)
    requires h.stage.key == r.key && HandleInv(usd, s.live, s.nextId, h)
    ensures Inv(usd, Hold(s, r, h))
  {
    var t := Hold(s, r, h);
    assert Handles(t) == Handles(s) + {h};
    FewerCaches(usd, t, s);
    hide HandleInv, CachesInv, Handles;
  }

  lemma NextIdKeeps(usd: Usd, s: State)
    requires Inv(usd, s)
    ensures Inv(usd, s.(nextId := s.nextId + 1))
  {
    var t := s.(nextId := s.nextId + 1);
    assert Handles(t) == Handles(s);
    forall h | h in Handles(t) ensures HandleInv(usd, t.live, t.nextId, h) {
      assert HandleInv(usd, s.live, s.nextId, h);
    }
    forall slot | slot in t.caches ensures EntryInv(usd, t, slot, t.caches[slot]) {
      assert EntryInv(usd, s, slot, s.caches[slot]);
    }
  }

  lemma CacheHandles(usd: Usd, s: State, r: Request, h: Handle, estimate: nat)
    requires HandlesInv(usd, s) && HandleInv(usd, s.live, s.nextId, h)
    ensures HandlesInv(usd, Cache(s, r, h, estimate))
  {
    hide WellComposed, Purged, MissingStamps;
    var t := Cache(s, r, h, estimate);
    assert Handles(t) <= Handles(s) + {h};
    forall g | g in Handles(t) ensures HandleInv(usd, t.live, t.nextId, g) {
      assert g == h || HandleInv(usd, s.live, s.nextId, g);
    }
  }

  /** Purging forgets the expired weak pointers and no other. */
  lemma {:induction false} PurgedKeeps(caches: map<Slot, Entry>, registry: seq<WeakEntry>)
    requires forall i, j :: 0 <= i < j < |registry| ==> registry[i] != registry[j]
    ensures var purged := Purged(caches, registry);
            && (forall w :: w in purged <==> w in registry && Alive(caches, w))
            && (forall i, j :: 0 <= i < j < |purged| ==> purged[i] != purged[j])
  {
    if registry == [] {
    } else {
      PurgedKeeps(caches, registry[1..]);
      var rest := Purged(caches, registry[1..]);
      assert registry[0] !in registry[1..];
      assert forall w :: w in registry <==> w == registry[0] || w in registry[1..];
    }
  }

  lemma CacheEntries(usd: Usd, s: State, r: Request, h: Handle, estimate: nat)
    requires CachesInv(usd, s) && RegistryInv(s) && h.stage.key == r.key
    requires forall p :: p in h.stage.missing ==> !Readable(usd, p, StampOf(s.files, p))
    ensures CachesInv(usd, Cache(s, r, h, estimate))
  {
    hide Readable, StampOf, Purged;
    var t := Cache(s, r, h, estimate);
    var slot := Slot(r.db, r.key);
    PurgedKeeps(t.caches, s.registry);
    forall x | x in t.caches ensures EntryInv(usd, t, x, t.caches[x]) {
      if x != slot {
        assert EntryInv(usd, s, x, s.caches[x]);
        assert Alive(t.caches, WeakEntry(x, s.caches[x].id));
      }
    }
    forall a, b | a in t.caches && b in t.caches && a != b
      ensures t.caches[a].id != t.caches[b].id && t.caches[a].lastUsed != t.caches[b].lastUsed
    {
      if a != slot { assert EntryInv(usd, s, a, s.caches[a]); }
      if b != slot { assert EntryInv(usd, s, b, s.caches[b]); }
    }
  }

  lemma CacheRegistry(s: State, r: Request, h: Handle, estimate: nat)
    requires RegistryInv(s)
    ensures RegistryInv(Cache(s, r, h, estimate))
  {
    hide Purged, MissingStamps;
    var t := Cache(s, r, h, estimate);
    PurgedKeeps(t.caches, s.registry);
    var purged := Purged(t.caches, s.registry);
    forall w | w in t.registry ensures w.id < t.nextId {
      assert w in purged || w == WeakEntry(Slot(r.db, r.key), s.nextId);
    }
    forall i, j | 0 <= i < j < |t.registry| ensures t.registry[i] != t.registry[j] {
      if j == |purged| { assert t.registry[i] in purged; }
    }
  }

  lemma CacheKeeps(usd: Usd, s: State, r: Request, h: Handle, estimate: nat)
    requires Inv(usd, s)
    requires h.stage.key == r.key && HandleInv(usd, s.live, s.nextId, h)
    requires forall p :: p in h.stage.missing ==> !Readable(usd, p, StampOf(s.files, p))
    ensures Inv(usd, Cache(s, r, h, estimate))
  {
    CacheHandles(usd, s, r, h, estimate);
    CacheEntries(usd, s, r, h, estimate);
    CacheRegistry(s, r, h, estimate);
    hide HandlesInv, CachesInv, RegistryInv, HandleInv, Purged, MissingStamps;
  }
}
