/** Which stages are cached, and that those are served again: from the cache, and to the scans of the query. */
module UsdStageCaching {
  import opened UsdStageAccess
  import opened UsdStageBudget
  import opened UsdStageFreshness
  import opened UsdStageInvariant
  import opened UsdStageModel
  import opened UsdStageRuns
  import opened UsdStageUse
  import opened Wrappers

  // ---------------------------------------------------------------- which stages are cached

  /** Whether the stage fits beside the stages that are left when the first `n` of the database's cached ones, in the
      order of their last use, are dropped: these and it take at most half of the memory limit, and it does not push the
      memory in use over the limit. */
  predicate FitsWithout(usd: Usd, s: State, r: Request, stage: Stage, n: nat) {
    var order := DropOrder(s, r.db);
    var estimate := usd.primCount(stage) * 2560 + |stage.layers| * 524288;
    && n <= |order|
    && TotalMemory(order[n..]) + estimate <= r.memory.limit / 2
    && r.memory.used(WithoutFirst(s.caches, r.db, order, n)) + estimate <= r.memory.limit
  }

  /** MakeRoom makes room if dropping any number of the least recently used stages does. */
  lemma MakesRoomWhen(usd: Usd, s: State, r: Request, stage: Stage)
    ensures MakeRoom(s, r.db, r.memory, EstimateStageMemory(usd, stage)).1 <==>
            exists n: nat :: FitsWithout(usd, s, r, stage, n)
  {
    hide DropOrder, TotalMemory, WithoutFirst;
    var order := DropOrder(s, r.db);
    var estimate := EstimateStageMemory(usd, stage);
    var k := DropCount(r.memory, s.caches, r.db, order, 0, estimate);
    forall n: nat | n <= |order|
      ensures FitsWithout(usd, s, r, stage, n) <==> FitsAfter(r.memory, s.caches, r.db, order, n, estimate)
    {
    }
    if FitsAfter(r.memory, s.caches, r.db, order, k, estimate) {
      assert FitsWithout(usd, s, r, stage, k);
    }
  }

  lemma SameFits(usd: Usd, s: State, t: State, r: Request, stage: Stage)
    requires t.caches == s.caches && t.registry == s.registry
    ensures forall n: nat :: FitsWithout(usd, t, r, stage, n) <==> FitsWithout(usd, s, r, stage, n)
  {
    assert DropOrder(t, r.db) == DropOrder(s, r.db);
  }

  lemma OthersStay(usd: Usd, s: State, db: nat, memory: Memory, estimate: nat)
    requires Inv(usd, s) && !MakeRoom(s, db, memory, estimate).1
    ensures var t := MakeRoom(s, db, memory, estimate).0;
            forall slot :: slot in t.caches <==> slot in s.caches && slot.db != db
  {
    hide Inv, MakeRoom, Fits, FitsAfter, DropOrder;
    var n := MakeRoomDropsOldest(usd, s, db, memory, estimate);
  }

  /** A stage that its database may use is cached exactly if caching is enabled, no layer is out of date, and it fits at
      all. If it does not, the database's stages are dropped nevertheless; without an attempt to cache, none is. */
  lemma CachesExactlyWhen(usd: Usd, s: State, r: Request, stage: Stage, warned: bool)
    requires Inv(usd, s) && MayReadAll(r, stage)
    ensures var (t, o) := Finish(usd, s, r, stage, warned);
            && o.Served? && o.handle.stage == stage && o.source.Opened?
            && (o.source.cached <==>
                  r.cacheEnabled && !warned && exists n: nat :: FitsWithout(usd, s, r, stage, n))
            && (!r.cacheEnabled || warned ==> t.caches == s.caches)
            && (r.cacheEnabled && !warned && !o.source.cached ==>
                  forall slot :: slot in t.caches <==> slot in s.caches && slot.db != r.db)
  {
    hide Inv, MakeRoom, FitsWithout, EstimateStageMemory, Handles, Cache, MayReadAll, DropOrder;
    var s1 := s.(nextId := s.nextId + 1);
    NextIdKeeps(usd, s);
    SameFits(usd, s, s1, r, stage);
    MakesRoomWhen(usd, s1, r, stage);
    var n := MakeRoomDropsOldest(usd, s1, r.db, r.memory, EstimateStageMemory(usd, stage));
    if !MakeRoom(s1, r.db, r.memory, EstimateStageMemory(usd, stage)).1 {
      OthersStay(usd, s1, r.db, r.memory, EstimateStageMemory(usd, stage));
    }
  }

  // ---------------------------------------------------------------- the entry

  /** The entry of a stage that was just cached. */
  ghost predicate IsCached(t: State, r: Request, h: Handle) {
    var slot := Slot(r.db, r.key);
    && slot in t.caches && t.caches[slot].handle == Some(h)
    && t.caches[slot].missing.Keys == h.stage.missing
    && (forall p :: p in h.stage.missing ==> t.caches[slot].missing[p] == StampOf(t.files, p))
  }

  lemma MakeRoomFrame(s: State, db: nat, memory: Memory, estimate: nat)
    ensures var t := MakeRoom(s, db, memory, estimate).0; t == s.(caches := t.caches)
  {
    hide DropOrder, DropCount, FitsAfter;
  }

  lemma FinishCaches(usd: Usd, s: State, r: Request, stage: Stage, warned: bool)
    ensures var (t, o) := Finish(usd, s, r, stage, warned);
            o.Served? && o.source == Opened(true) ==> IsCached(t, r, o.handle)
  {
    hide MakeRoom, EstimateStageMemory, Handles, Purged;
    FinishUnfolds(usd, s, r, stage, warned);
    MakeRoomFrame(s.(nextId := s.nextId + 1), r.db, r.memory, EstimateStageMemory(usd, stage));
  }

  lemma OpenUncachedCaches(usd: Usd, s: State, r: Request)
    ensures var (t, o) := OpenUncached(usd, s, r);
            o.Served? && o.source == Opened(true) ==> IsCached(t, r, o.handle)
  {
    hide Finish, LetGo, OpenStage, RecordLayers, ChangedLayers, IsCached;
    match OpenStage(usd, s, r.key)
    case None =>
    case Some((s1, stage)) =>
      var s2 := RecordLayers(s1, stage.layers);
      FinishCaches(usd, s2, r, stage, false);
      match OpenStage(usd, LetGo(s2, r.db, ChangedLayers(s1, stage.layers)), r.key)
      case None =>
      case Some((s4, again)) =>
        FinishCaches(usd, RecordLayers(s4, again.layers), r, again, ChangedLayers(s4, again.layers) != map[]);
  }

  lemma OpenNotWarned(usd: Usd, s: State, r: Request)
    requires Inv(usd, s)
    ensures var o := Open(usd, s, r).1; o.Served? && o.source == Opened(true) ==> !o.warned
  {
    hide Inv, WithinBudget, OpenNew, IsShared;
    ForgetKeeps(usd, s, r);
    OpenNewWithinBudget(usd, Forget(s, r), r);
  }

  lemma CachedIsUpToDate(t: State, r: Request, h: Handle)
    requires IsCached(t, r, h) && OutOfDate(t.files, h.stage.layers) == map[]
    ensures UpToDate(t, Slot(r.db, r.key))
  {
    forall p | p in h.stage.layers ensures h.stage.layers[p].stamp == StampOf(t.files, p) {
      assert p !in OutOfDate(t.files, h.stage.layers);
    }
  }

  lemma OpenCaches(usd: Usd, s: State, r: Request)
    requires Inv(usd, s)
    ensures var (t, o) := Open(usd, s, r);
            o.Served? && o.source == Opened(true) ==>
              IsCached(t, r, o.handle) && UpToDate(t, Slot(r.db, r.key)) && t.files == s.files && Inv(usd, t)
  {
    hide Inv, LookUp, OpenUncached, IsCached, UpToDate, IsShared, FreshOpen, OutOfDate;
    OpenIsHonest(usd, s, r);
    OpenNotWarned(usd, s, r);
    OpenUncachedCaches(usd, LookUp(Forget(s, r), r).0, r);
    var (t, o) := Open(usd, s, r);
    if o.Served? && o.source == Opened(true) {
      CachedIsUpToDate(t, r, o.handle);
    }
  }

  lemma IdsBefore(usd: Usd, s: State, slot: Slot)
    requires Inv(usd, s) && slot in s.caches
    ensures s.caches[slot].id < s.nextId
  {
    assert EntryInv(usd, s, slot, s.caches[slot]);
  }

  lemma SameEntry(t: State, u: State, r: Request, h: Handle)
    requires IsCached(t, r, h) && UpToDate(t, Slot(r.db, r.key)) && Descends(t, u)
    requires var slot := Slot(r.db, r.key);
             && t.caches[slot].id < t.nextId
             && slot in u.caches && u.caches[slot].id == t.caches[slot].id && u.caches[slot].handle.Some?
    ensures u.caches[Slot(r.db, r.key)].handle == Some(h)
    ensures UpToDate(u, Slot(r.db, r.key)) <==>
            forall p :: p in h.stage.layers.Keys + h.stage.missing ==> StampOf(u.files, p) == StampOf(t.files, p)
  {
  }

  /** A stage that was cached is a hit for every query of its database that may read its layers, for as long as its
      entry is not dropped or released, and while its layers and the assets it misses are what they were when it was
      cached; and only then. */
  lemma CachedIsHit(usd: Usd, s: State, r: Request, ops: seq<Op>, other: Request)
    requires Inv(usd, s) && Open(usd, s, r).1.Served? && Open(usd, s, r).1.source == Opened(true)
    requires other.db == r.db && other.key == r.key
    requires var slot, t := Slot(r.db, r.key), Open(usd, s, r).0;
             var u := Run(usd, t, ops);
             && slot in t.caches && slot in u.caches
             && u.caches[slot].id == t.caches[slot].id && u.caches[slot].handle.Some?
    ensures var h, u := Open(usd, s, r).1.handle, Run(usd, Open(usd, s, r).0, ops);
            FindCachedStage(u, other).1 ==
            if !(forall p :: p in h.stage.layers.Keys + h.stage.missing ==> StampOf(u.files, p) == StampOf(s.files, p))
            then Miss
            else if exists p :: p in h.stage.layers && !other.mayRead(p) then Denied else Hit(h)
  {
    hide Inv, Open, Run, FindCachedStage;
    var (t, o) := Open(usd, s, r);
    OpenCaches(usd, s, r);
    RunKeeps(usd, t, ops);
    var u := Run(usd, t, ops);
    RunDescends(usd, t, ops);
    IdsBefore(usd, t, Slot(r.db, r.key));
    SameEntry(t, u, r, o.handle);
    LookupIsRight(usd, u, other);
  }

  // ---------------------------------------------------------------- sharing until the end of the scan

  /** A scan of the query holds the stage, and it is what the query opens under its key. */
  ghost predicate IsHeld(s: State, k: (nat, StageKey), h: Handle) {
    (k.0, h) in s.scans && k in s.recent && s.recent[k] == h
  }

  lemma HeldIsShared(s: State, k: (nat, StageKey), h: Handle)
    requires IsHeld(s, k, h)
    ensures h in Handles(s)
  {
  }

  lemma HeldAfterStep(usd: Usd, s: State, op: Op, k: (nat, StageKey), h: Handle)
    requires Inv(usd, s) && IsHeld(s, k, h) && op != EndScan(k.0, h) && op != EndQuery(k.0)
    ensures IsHeld(Step(usd, s, op), k, h)
  {
    hide Inv, Open, Handles, Snapshot, OwnedBy, WithoutFirst, OutOfDate, FreshOpen;
    if op.OpenStageOp? {
      OpenRecent(usd, s, op.request);
      OpenIsHonest(usd, s, op.request);
      HeldIsShared(s, k, h);
    }
  }

  lemma {:induction false} HeldInRun(usd: Usd, s: State, ops: seq<Op>, k: (nat, StageKey), h: Handle)
    requires Inv(usd, s) && IsHeld(s, k, h) && EndScan(k.0, h) !in ops && EndQuery(k.0) !in ops
    ensures IsHeld(Run(usd, s, ops), k, h) && Inv(usd, Run(usd, s, ops))
    decreases |ops|
  {
    hide Inv, IsHeld, Step;
    if ops == [] {
    } else {
      HeldAfterStep(usd, s, ops[0], k, h);
      StepKeeps(usd, s, ops[0]);
      HeldInRun(usd, Step(usd, s, ops[0]), ops[1..], k, h);
    }
  }

  /** A stage that an open hands out is held, so the query's next open under the same key shares it, whatever becomes of
      its files and its cache entry, until the scan that holds it or the query ends. */
  lemma SharedUntilEnd(usd: Usd, s: State, r: Request, ops: seq<Op>, next: Request)
    requires Inv(usd, s) && Open(usd, s, r).1.Served?
    requires next.query == r.query && next.key == r.key
    requires EndScan(r.query, Open(usd, s, r).1.handle) !in ops && EndQuery(r.query) !in ops
    ensures var (t, o) := Open(usd, s, r);
            Open(usd, Run(usd, t, ops), next).1 == Served(o.handle, FromQuery, false)
  {
    hide Inv, OpenNew, Run, Handles, OutOfDate, FreshOpen;
    var (t, o) := Open(usd, s, r);
    var k := (r.query, r.key);
    OpenRecent(usd, s, r);
    OpenIsHonest(usd, s, r);
    HeldInRun(usd, t, ops, k, o.handle);
    HeldIsShared(Run(usd, t, ops), k, o.handle);
  }
}
