/** UsdStageProvider, with the tables it updates in place. Each method is proved to make the step that the functions of
    `UsdStageModel` describe, so what is proved of those holds of the methods. */
module UsdStageProvider {
  import opened Wrappers
  import opened UsdStageModel
  import opened UsdStageAccess
  import opened UsdStageInvariant
  import opened UsdStageFreshness
  import opened UsdStageBudget
  import opened UsdStageRuns

  /** Those of `layers` that are not among `paths`. */
  function Without(layers: map<Path, Layer>, paths: set<Path>): map<Path, Layer> {
    map p | p in layers && p !in paths :: layers[p]
  }

  lemma CheckNone(s: State, layers: map<Path, Layer>)
    ensures NewStamps(s, Without(layers, layers.Keys)) == map[] &&
            ChangedLayers(s, Without(layers, layers.Keys)) == map[]
    ensures RecordLayers(s, Without(layers, layers.Keys)) == s
    ensures Without(layers, {}) == layers
  {
  }

  lemma NewStampsOne(s: State, layers: map<Path, Layer>, todo: set<Path>, p: Path)
    requires p in todo && todo <= layers.Keys
    ensures var before := NewStamps(s, Without(layers, todo));
            && p !in before
            && NewStamps(s, Without(layers, todo - {p})) ==
                 if Seen(s.stamps, p, layers[p]) then before
                 else before[p := Layer(layers[p].load, StampOf(s.files, p))]
  {
  }

  lemma ChangedOne(s: State, layers: map<Path, Layer>, todo: set<Path>, p: Path)
    requires p in todo && todo <= layers.Keys
    ensures var before := ChangedLayers(s, Without(layers, todo));
            ChangedLayers(s, Without(layers, todo - {p})) ==
            if Seen(s.stamps, p, layers[p]) && s.stamps[p].stamp != StampOf(s.files, p)
            then before[p := layers[p]] else before
  {
  }

  /** Looking at one more layer. */
  lemma CheckOne(s: State, layers: map<Path, Layer>, todo: set<Path>, p: Path)
    requires p in todo && todo <= layers.Keys
    ensures var stamps := RecordLayers(s, Without(layers, todo)).stamps;
            var recorded := RecordLayers(s, Without(layers, todo - {p})).stamps;
            var changed := ChangedLayers(s, Without(layers, todo));
            var l := layers[p];
            && (Seen(stamps, p, l) <==> Seen(s.stamps, p, l))
            && (Seen(stamps, p, l) ==> stamps[p] == s.stamps[p])
            && recorded == (if Seen(stamps, p, l) then stamps else stamps[p := Layer(l.load, StampOf(s.files, p))])
            && ChangedLayers(s, Without(layers, todo - {p})) ==
                 if Seen(stamps, p, l) && stamps[p].stamp != StampOf(s.files, p) then changed[p := l] else changed
  {
    hide NewStamps, ChangedLayers, Without, StampOf;
    NewStampsOne(s, layers, todo, p);
    ChangedOne(s, layers, todo, p);
    var before := NewStamps(s, Without(layers, todo));
    var stamp := Layer(layers[p].load, StampOf(s.files, p));
    assert s.stamps + before[p := stamp] == (s.stamps + before)[p := stamp];
  }

  function Slots(cs: seq<Cached>): set<Slot> {
    set c | c in cs :: c.slot
  }

  lemma SlotsNext(cs: seq<Cached>, n: nat)
    requires n < |cs|
    ensures Slots(cs[..n + 1]) == Slots(cs[..n]) + {cs[n].slot}
  {
    assert cs[..n + 1] == cs[..n] + [cs[n]];
  }

  /** What releasing does to the entries in `slots`. */
  function ReleaseIn(caches: map<Slot, Entry>, db: nat, changed: map<Path, Layer>, slots: set<Slot>): map<Slot, Entry> {
    map slot | slot in caches && !(slot.db == db && slot in slots && UsesChanged(caches[slot], changed))
      :: if slot in slots && UsesChanged(caches[slot], changed) then caches[slot].(handle := None) else caches[slot]
  }

  lemma ReleaseNone(caches: map<Slot, Entry>, db: nat, changed: map<Path, Layer>)
    ensures ReleaseIn(caches, db, changed, Slots([])) == caches
  {
  }

  lemma ReleaseAll(caches: map<Slot, Entry>, db: nat, changed: map<Path, Layer>, slots: set<Slot>)
    requires caches.Keys <= slots
    ensures ReleaseIn(caches, db, changed, slots) == Release(caches, db, changed)
  {
  }

  /** A snapshot has every cached entry, each once. */
  lemma AllIn(usd: Usd, s: State, all: seq<Cached>)
    requires CachesInv(usd, s) && RegistryInv(s) && all == Snapshot(s.caches, s.registry)
    ensures s.caches.Keys <= Slots(all)
    ensures forall i :: 0 <= i < |all| ==> CachedIn(s.caches, all[i]) && all[i].slot !in Slots(all[..i])
    ensures forall a, b :: a in s.caches && b in s.caches && a != b ==> s.caches[a].id != s.caches[b].id
  {
    SnapshotHolds(s.caches, s.registry);
    forall slot | slot in s.caches ensures slot in Slots(all) {
      assert EntryInv(usd, s, slot, s.caches[slot]);
      assert Cached(slot, s.caches[slot]) in all;
    }
    forall i | 0 <= i < |all| ensures CachedIn(s.caches, all[i]) && all[i].slot !in Slots(all[..i]) {
      assert all[i] in all;
    }
  }

  /** What one more released entry changes. */
  lemma ReleaseMore(caches: map<Slot, Entry>, db: nat, changed: map<Path, Layer>, slots: set<Slot>, c: Cached)
    requires CachedIn(caches, c) && c.slot !in slots
    ensures var before := ReleaseIn(caches, db, changed, slots);
            c.slot in before && before[c.slot] == c.entry &&
            ReleaseIn(caches, db, changed, slots + {c.slot}) ==
            if !UsesChanged(c.entry, changed) then before
            else if c.slot.db == db then before - {c.slot}
            else before[c.slot := c.entry.(handle := None)]
  {
    hide UsesChanged;
    var before, after := ReleaseIn(caches, db, changed, slots), ReleaseIn(caches, db, changed, slots + {c.slot});
    forall slot | slot != c.slot
      ensures slot in after <==> slot in before
      ensures slot in before ==> after[slot] == before[slot]
    {
    }
  }

  /** Releasing one more entry. */
  lemma ReleaseOne(caches: map<Slot, Entry>, db: nat, changed: map<Path, Layer>, slots: set<Slot>, c: Cached)
    requires CachedIn(caches, c) && c.slot !in slots
    requires forall a, b :: a in caches && b in caches && a != b ==> caches[a].id != caches[b].id
    ensures var before := ReleaseIn(caches, db, changed, slots);
            var released := before[c.slot := c.entry.(handle := None)];
            ReleaseIn(caches, db, changed, slots + {c.slot}) ==
            if UsesChanged(c.entry, changed) then Remove(released, db, c) else before
  {
    ReleaseMore(caches, db, changed, slots, c);
    var before := ReleaseIn(caches, db, changed, slots);
    var slot := Slot(db, c.slot.key);
    if c.slot.db != db {
      assert slot in before ==> before[slot].id == caches[slot].id != c.entry.id;
    }
    hide ReleaseIn, UsesChanged;
    assert before[c.slot := c.entry.(handle := None)] - {c.slot} == before - {c.slot};
  }

  /** Every cached stage that uses a changed layer is let go of; those of `db` leave its cache, and no other does. */
  ghost predicate LetsGo(before: map<Slot, Entry>, db: nat, changed: map<Path, Layer>, after: map<Slot, Entry>) {
    && after.Keys <= before.Keys
    && forall slot :: slot in before ==>
         var e := before[slot];
         if e.handle.Some? &&
            exists p :: p in e.handle.value.stage.layers && p in changed && changed[p] == e.handle.value.stage.layers[p]
         then if slot.db == db then slot !in after else slot in after && after[slot] == e.(handle := None)
         else slot in after && after[slot] == e
  }

  lemma ReleaseLetsGo(caches: map<Slot, Entry>, db: nat, changed: map<Path, Layer>)
    ensures LetsGo(caches, db, changed, Release(caches, db, changed))
  {
  }

  lemma {:induction false} PurgedMembers(caches: map<Slot, Entry>, registry: seq<WeakEntry>)
    ensures forall w :: w in Purged(caches, registry) <==> w in registry && Alive(caches, w)
  {
    if registry == [] {
    } else {
      PurgedMembers(caches, registry[1..]);
      assert registry == [registry[0]] + registry[1..];
    }
  }

  lemma InvCaches(usd: Usd, s: State)
    requires Inv(usd, s)
    ensures CachesInv(usd, s) && RegistryInv(s)
  {
  }

  class Provider {
    const usd: Usd
    var files: map<Path, FileStamp>
    var live: map<Path, Layer>
    var loads: nat
    var stamps: map<Path, Layer>
    var caches: map<Slot, Entry>
    var registry: seq<WeakEntry>
    var nextId: nat
    var clock: nat
    var scans: set<(nat, Handle)>
    var recent: map<(nat, StageKey), Handle>

    ghost function Now(): State
      reads this
    {
      State(files, live, loads, stamps, caches, registry, nextId, clock, scans, recent)
    }

    constructor (usd: Usd)
      ensures this.usd == usd && Now() == INITIAL && Inv(usd, Now())
    {
      this.usd := usd;
      files, live, loads, stamps := map[], map[], 0, map[];
      caches, registry, nextId, clock, scans, recent := map[], [], 0, 0, {}, map[];
      new;
      assert Handles(INITIAL) == {};
    }

    /** The stages that something holds. */
    method HeldStages() returns (handles: set<Handle>)
      ensures handles == Handles(Now())
    {
      handles := (set slot | slot in caches && caches[slot].handle.Some? :: caches[slot].handle.value) +
                 (set held | held in scans :: held.1);
    }

    /** USD frees the layers that no stage uses. */
    method FreeUnusedLayers()
      modifies this`live
      ensures Now() == Collect(old(Now()))
    {
      var handles := HeldStages();
      live := map p | p in live && InUse(handles, p) :: live[p];
    }

    /** UsdCachedStageRegistry::Snapshot */
    method LockAll() returns (cs: seq<Cached>)
      ensures cs == Snapshot(caches, registry)
    {
      cs := [];
      for i := 0 to |registry|
        invariant cs + Snapshot(caches, registry[i..]) == Snapshot(caches, registry)
      {
        var w := registry[i];
        assert registry[i..][0] == w && registry[i..][1..] == registry[i + 1..];
        if Alive(caches, w) {
          cs := cs + [Cached(w.slot, caches[w.slot])];
        }
      }
      assert registry[|registry|..] == [];
    }

    /** UsdCachedStageRegistry::Add */
    method AddToRegistry(w: WeakEntry)
      modifies this`registry
      ensures registry == Purged(caches, old(registry)) + [w]
      ensures forall x :: x in registry <==>
                x == w || (x in old(registry) && x.slot in caches && caches[x.slot].id == x.id)
    {
      var kept: seq<WeakEntry> := [];
      for i := 0 to |registry|
        invariant registry == old(registry)
        invariant kept + Purged(caches, registry[i..]) == Purged(caches, registry)
      {
        assert registry[i..][0] == registry[i] && registry[i..][1..] == registry[i + 1..];
        if Alive(caches, registry[i]) {
          kept := kept + [registry[i]];
        }
      }
      assert registry[|registry|..] == [];
      PurgedMembers(caches, registry);
      registry := kept + [w];
    }

    /** Records the layers that were not seen yet, and returns those whose files changed since they were. */
    method CheckLayers(layers: map<Path, Layer>) returns (changed: map<Path, Layer>)
      modifies this`stamps
      ensures changed == ChangedLayers(old(Now()), layers)
      ensures Now() == RecordLayers(old(Now()), layers)
    {
      changed := map[];
      var todo := layers.Keys;
      ghost var was := Now();
      CheckNone(was, layers);
      hide NewStamps, ChangedLayers, Without, StampOf;
      while todo != {}
        invariant todo <= layers.Keys
        invariant Now() == RecordLayers(was, Without(layers, todo))
        invariant changed == ChangedLayers(was, Without(layers, todo))
        decreases todo
      {
        var p :| p in todo;
        CheckOne(was, layers, todo, p);
        var current := StampOf(files, p);
        if !Seen(stamps, p, layers[p]) {
          stamps := stamps[p := Layer(layers[p].load, current)];
        } else if stamps[p].stamp != current {
          changed := changed[p := layers[p]];
        }
        todo := todo - {p};
      }
    }

    /** RemoveFromObjectCache */
    method RemoveFromObjectCache(db: nat, c: Cached)
      modifies this`caches
      ensures caches == Remove(old(caches), db, c)
    {
      var slot := Slot(db, c.slot.key);
      if slot in caches && caches[slot].id == c.entry.id {
        caches := caches - {slot};
      }
    }

    /** Goes through the cached stages of `db` in the order of their last use, and stops once there is room. */
    method MakeRoom(db: nat, memory: Memory, estimate: nat) returns (fits: bool)
      modifies this`caches
      ensures var (t, f) := UsdStageModel.MakeRoom(old(Now()), db, memory, estimate);
              Now() == t && fits == f
    {
      var all := LockAll();
      var order := SortedByUse(OwnedBy(all, db));
      ghost var was := Now();
      var cachedMemory := TotalMemory(order);
      var i := 0;
      assert order[0..] == order;
      while i < |order| && !Fits(memory, cachedMemory, caches, estimate)
        invariant 0 <= i <= |order|
        invariant cachedMemory == TotalMemory(order[i..])
        invariant Now() == was.(caches := WithoutFirst(was.caches, db, order, i))
        invariant DropCount(memory, was.caches, db, order, 0, estimate) ==
                  DropCount(memory, was.caches, db, order, i, estimate)
      {
        RemoveFromObjectCache(db, order[i]);
        TotalSplit(order, i);
        cachedMemory := cachedMemory - order[i].entry.memory;
        i := i + 1;
      }
      fits := Fits(memory, cachedMemory, caches, estimate);
    }

    /** Releases every cached stage that uses one of the changed layers; those of `db` leave its cache. */
    method ReleaseStagesUsing(db: nat, changed: map<Path, Layer>)
      requires CachesInv(usd, Now()) && RegistryInv(Now())
      modifies this`caches
      ensures Now() == old(Now()).(caches := Release(old(caches), db, changed))
      ensures LetsGo(old(caches), db, changed, caches)
    {
      ReleaseLetsGo(caches, db, changed);
      hide LetsGo, CachesInv, RegistryInv, UsesChanged, ReleaseIn, Snapshot, Release, Remove, Slots;
      var all := LockAll();
      ghost var was := caches;
      AllIn(usd, Now(), all);
      assert all[..0] == [];
      ReleaseNone(was, db, changed);
      for i := 0 to |all|
        invariant Now() == old(Now()).(caches := ReleaseIn(was, db, changed, Slots(all[..i])))
      {
        var c := all[i];
        SlotsNext(all, i);
        ReleaseOne(was, db, changed, Slots(all[..i]), c);
        if UsesChanged(c.entry, changed) {
          caches := caches[c.slot := c.entry.(handle := None)];
          RemoveFromObjectCache(db, c);
        }
      }
      assert all[..|all|] == all;
      ReleaseAll(was, db, changed, Slots(all));
    }

    /** Whether an asset that the stage of `e` misses now resolves otherwise. */
    method MissingChanged(e: Entry) returns (r: bool)
      ensures r == MissingAssetsChanged(Now(), e)
    {
      r := exists p :: p in e.missing && e.missing[p] != StampOf(files, p);
    }

    /** VerifyCanAccessLayers */
    method VerifyCanAccessLayers(r: Request, stage: Stage) returns (may: bool)
      ensures may == MayReadAll(r, stage)
    {
      var todo := stage.layers.Keys;
      while todo != {}
        invariant todo <= stage.layers.Keys
        invariant forall p :: p in stage.layers && p !in todo ==> r.mayRead(p)
        decreases todo
      {
        var p :| p in todo;
        if !r.mayRead(p) {
          return false;
        }
        todo := todo - {p};
      }
      return true;
    }

    method FindCachedStage(r: Request) returns (lookup: Lookup)
      requires Inv(usd, Now())
      modifies this
      ensures (Now(), lookup) == UsdStageModel.FindCachedStage(old(Now()), r)
      ensures LookedUpRightly(old(Now()), r, lookup)
      ensures Inv(usd, Now())
    {
      hide Inv, LayersInv, CachesInv, RegistryInv, HandleInv, WellComposed, InMemory, Collect, Release, ChangedLayers,
           RecordLayers, MissingAssetsChanged, OutOfDate, MayReadAll, LookedUpRightly;
      FindCachedStageKeeps(usd, Now(), r);
      LookupIsRight(usd, Now(), r);
      var slot := Slot(r.db, r.key);
      if slot !in caches {
        return Miss;
      }
      var e := caches[slot];
      if e.handle.None? {
        caches := caches - {slot};
        return Miss;
      }
      ghost var was := Now();
      CachedStageInMemory(usd, was, slot);
      RecordSeen(usd, was, e.handle.value.stage.layers);
      InvCaches(usd, was);
      var changed := CheckLayers(e.handle.value.stage.layers);
      var missingChanged := MissingChanged(e);
      if changed == map[] && !missingChanged {
        var may := VerifyCanAccessLayers(r, e.handle.value.stage);
        if !may {
          return Denied;
        }
        clock := clock + 1;
        caches := caches[slot := e.(lastUsed := clock)];
        return Hit(e.handle.value);
      }
      if changed != map[] {
        ReleaseStagesUsing(r.db, changed);
      }
      caches := caches - {slot};
      FreeUnusedLayers();
      return Miss;
    }

    /** OpenStage: USD composes the stage from the layers it has in memory and the files. */
    method OpenStage(key: StageKey) returns (stage: Option<Stage>)
      modifies this`live, this`loads
      ensures match UsdStageModel.OpenStage(usd, old(Now()), key)
              case None => stage == None && Now() == old(Now())
              case Some((t, composed)) => stage == Some(composed) && Now() == t
    {
      hide Compose, Visible;
      var composition := Compose(usd, key, Visible(usd, files, live));
      if composition.None? {
        return None;
      }
      var versions, missing := composition.value.0, composition.value.1;
      var layers := map p | p in versions :: if p in live then live[p] else Layer(loads, versions[p]);
      live, loads := live + layers, loads + 1;
      return Some(Stage(key, layers, missing));
    }

    /** Gives the handle to the scan that opens it. */
    method HandOut(r: Request, h: Handle)
      modifies this`scans, this`recent
      ensures Now() == Hold(old(Now()), r, h)
    {
      scans := scans + {(r.query, h)};
      recent := recent[(r.query, r.key) := h];
    }

    /** Puts a new entry into the object cache, and adds it to the registry. */
    method CacheStage(r: Request, h: Handle, estimate: nat)
      modifies this
      ensures Now() == Cache(old(Now()), r, h, estimate)
    {
      hide Purged;
      var slot := Slot(r.db, r.key);
      var e := Entry(nextId, Some(h), estimate, clock + 1, map p | p in h.stage.missing :: StampOf(files, p));
      assert e.missing == MissingStamps(Now(), h.stage.missing);
      nextId, clock := nextId + 1, clock + 1;
      caches := caches[slot := e];
      AddToRegistry(WeakEntry(slot, e.id));
    }

    /** Caches the stage, unless a layer is out of date or there is no room for it. */
    method Finish(r: Request, stage: Stage, warned: bool) returns (o: Outcome)
      modifies this
      ensures var (t, served) := UsdStageModel.Finish(usd, old(Now()), r, stage, warned);
              Now() == t && o == served
    {
      hide UsdStageModel.MakeRoom, Collect, Cache, Hold, EstimateStageMemory, MayReadAll;
      var may := VerifyCanAccessLayers(r, stage);
      if !may {
        FreeUnusedLayers();
        return Refused;
      }
      var h := Handle(nextId, stage);
      nextId := nextId + 1;
      var cached := false;
      if r.cacheEnabled && !warned {
        var estimate := EstimateStageMemory(usd, stage);
        cached := MakeRoom(r.db, r.memory, estimate);
        if cached {
          CacheStage(r, h, estimate);
        }
      }
      HandOut(r, h);
      FreeUnusedLayers();
      o := Served(h, Opened(cached), warned);
    }

    /** Composes the stage; if USD reused layers whose files changed, releases them and composes it again. */
    method OpenUncached(r: Request) returns (o: Outcome)
      requires Inv(usd, Now())
      modifies this
      ensures var (t, served) := UsdStageModel.OpenUncached(usd, old(Now()), r);
              Now() == t && o == served
    {
      hide Inv, UsdStageModel.Finish, RecordLayers, ChangedLayers, UsdStageModel.OpenStage, Release, Collect, FreshOpen,
           OutOfDate, WellComposed, InMemory;
      OpenStageAttempt(usd, Now(), r.key);
      var stage := OpenStage(r.key);
      if stage.None? {
        return Failed;
      }
      var changed := CheckLayers(stage.value.layers);
      if changed != map[] {
        ghost var before := Now();
        LetGoKeeps(usd, before, r.db, changed);
        InvCaches(usd, before);
        ReleaseStagesUsing(r.db, changed);
        FreeUnusedLayers();
        assert Now() == LetGo(before, r.db, changed);
        stage := OpenStage(r.key);
        if stage.None? {
          return Failed;
        }
        changed := CheckLayers(stage.value.layers);
      }
      o := Finish(r, stage.value, changed != map[]);
    }

    /** Opens a stage that the query does not have open. */
    method OpenNew(r: Request) returns (o: Outcome)
      requires Inv(usd, Now())
      modifies this
      ensures (Now(), o) == UsdStageModel.OpenNew(usd, old(Now()), r)
    {
      hide Inv, UsdStageModel.FindCachedStage, UsdStageModel.OpenUncached;
      if !r.mayRead(r.key.root) {
        return Refused;
      }
      if r.cacheEnabled {
        var lookup := FindCachedStage(r);
        match lookup
        case Hit(h) =>
          HandOut(r, h);
          return Served(h, FromCache, false);
        case Denied => return Refused;
        case Miss =>
      }
      o := OpenUncached(r);
    }

    /** UsdStageProvider::Open */
    method Open(r: Request) returns (o: Outcome)
      requires Inv(usd, Now())
      modifies this
      ensures (Now(), o) == UsdStageModel.Open(usd, old(Now()), r)
      ensures Inv(usd, Now())
      ensures if IsShared(old(Now()), r) then o == Served(old(recent)[(r.query, r.key)], FromQuery, false)
              else EndsAt(usd, old(Now()), r, o) && Honest(usd, files, r, o)
    {
      OpenIsHonest(usd, Now(), r);
      OpenEndsAt(usd, Now(), r);
      ForgetKeeps(usd, Now(), r);
      hide Inv, UsdStageModel.OpenNew, Honest, Handles, EndsAt;
      var handles := HeldStages();
      if (r.query, r.key) in recent && recent[(r.query, r.key)] in handles {
        var h := recent[(r.query, r.key)];
        HandOut(r, h);
        return Served(h, FromQuery, false);
      }
      recent := recent - {(r.query, r.key)};
      o := OpenNew(r);
    }

    /** UsdStageProvider::DropCachedStages */
    method DropCachedStages(db: nat)
      requires Inv(usd, Now())
      modifies this`caches, this`live
      ensures Now() == UsdStageModel.DropCachedStages(old(Now()), db)
      ensures forall slot :: slot in caches <==> slot in old(caches) && slot.db != db
      ensures forall slot :: slot in caches ==> caches[slot] == old(caches)[slot]
    {
      DropEmpties(usd, Now(), db);
      hide Inv, Handles;
      var all := LockAll();
      var cs := OwnedBy(all, db);
      ghost var was := Now();
      for i := 0 to |cs|
        invariant Now() == was.(caches := WithoutFirst(was.caches, db, cs, i))
      {
        RemoveFromObjectCache(db, cs[i]);
      }
      FreeUnusedLayers();
    }
  }
}
