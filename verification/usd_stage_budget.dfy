/** The memory that cached stages take, and which of them make room for a new one. */
module UsdStageBudget {
  import opened UsdStageModel
  import opened UsdStageInvariant
  import opened UsdStageFreshness

  // ---------------------------------------------------------------- snapshots

  /** The entries of a snapshot are cached, each once, and those of live weak pointers are all in it. */
  lemma {:induction false} SnapshotHolds(caches: map<Slot, Entry>, registry: seq<WeakEntry>)
    requires forall i, j :: 0 <= i < j < |registry| ==> registry[i] != registry[j]
    ensures var cs := Snapshot(caches, registry);
            && (forall c :: c in cs <==>
                  c.slot in caches && caches[c.slot] == c.entry && WeakEntry(c.slot, c.entry.id) in registry)
            && (forall i, j :: 0 <= i < j < |cs| ==> cs[i].slot != cs[j].slot)
  {
    if registry == [] {
    } else {
      SnapshotHolds(caches, registry[1..]);
      var rest := Snapshot(caches, registry[1..]);
      assert forall w :: w in registry <==> w == registry[0] || w in registry[1..];
      assert registry[0] !in registry[1..];
      if Alive(caches, registry[0]) {
        var c := Cached(registry[0].slot, caches[registry[0].slot]);
        assert Snapshot(caches, registry) == [c] + rest;
        forall i | 0 <= i < |rest| ensures rest[i].slot != c.slot {
          assert rest[i] in rest;
        }
      }
    }
  }

  lemma {:induction false} OwnedByHolds(cs: seq<Cached>, db: nat)
    requires forall i, j :: 0 <= i < j < |cs| ==> cs[i].slot != cs[j].slot
    ensures var owned := OwnedBy(cs, db);
            && (forall c :: c in owned <==> c in cs && c.slot.db == db)
            && (forall i, j :: 0 <= i < j < |owned| ==> owned[i].slot != owned[j].slot)
  {
    if cs == [] {
    } else {
      OwnedByHolds(cs[1..], db);
      assert forall c :: c in cs <==> c == cs[0] || c in cs[1..];
      forall c | c in OwnedBy(cs[1..], db) ensures c.slot != cs[0].slot {
        var i :| 0 <= i < |cs[1..]| && cs[1..][i] == c;
        assert cs[i + 1] == c;
      }
    }
  }

  ghost predicate SortedStrictly(cs: seq<Cached>) {
    forall i, j :: 0 <= i < j < |cs| ==> cs[i].entry.lastUsed < cs[j].entry.lastUsed
  }

  lemma TotalCons(c: Cached, cs: seq<Cached>)
    ensures TotalMemory([c] + cs) == c.entry.memory + TotalMemory(cs)
  {
  }

  lemma {:induction false} InsertSorts(c: Cached, cs: seq<Cached>)
    requires SortedStrictly(cs) && forall x :: x in cs ==> x.entry.lastUsed != c.entry.lastUsed
    ensures SortedStrictly(InsertByUse(c, cs))
    ensures forall x :: x in InsertByUse(c, cs) <==> x == c || x in cs
    ensures TotalMemory(InsertByUse(c, cs)) == c.entry.memory + TotalMemory(cs)
    ensures |InsertByUse(c, cs)| == |cs| + 1
  {
    if cs == [] || c.entry.lastUsed <= cs[0].entry.lastUsed {
      if cs != [] { assert cs[0] in cs; }
      assert ([c] + cs)[1..] == cs;
    } else {
      var rest := InsertByUse(c, cs[1..]);
      assert InsertByUse(c, cs) == [cs[0]] + rest && cs == [cs[0]] + cs[1..];
      TotalCons(cs[0], cs[1..]);
      TotalCons(cs[0], rest);
      hide InsertByUse, TotalMemory;
      InsertSorts(c, cs[1..]);
      forall i | 0 <= i < |rest| ensures cs[0].entry.lastUsed < rest[i].entry.lastUsed {
        assert rest[i] in rest;
      }
    }
  }

  lemma {:induction false} SortSorts(cs: seq<Cached>)
    requires forall i, j :: 0 <= i < j < |cs| ==> cs[i].entry.lastUsed != cs[j].entry.lastUsed
    ensures SortedStrictly(SortedByUse(cs))
    ensures forall c :: c in SortedByUse(cs) <==> c in cs
    ensures TotalMemory(SortedByUse(cs)) == TotalMemory(cs)
    ensures |SortedByUse(cs)| == |cs|
  {
    if cs == [] {
    } else {
      SortSorts(cs[1..]);
      assert forall c :: c in cs <==> c == cs[0] || c in cs[1..];
      InsertSorts(cs[0], SortedByUse(cs[1..]));
    }
  }

  ghost predicate CachedIn(caches: map<Slot, Entry>, c: Cached) {
    c.slot in caches && caches[c.slot] == c.entry
  }

  /** The order MakeRoom drops stages in: every stage the database has cached, the least recently used first. */
  lemma DropOrderHolds(usd: Usd, s: State, db: nat)
    requires Inv(usd, s)
    ensures var order := DropOrder(s, db);
            && SortedStrictly(order)
            && (forall c :: c in order <==> c.slot.db == db && CachedIn(s.caches, c))
            && TotalMemory(order) == TotalMemory(OwnedBy(Snapshot(s.caches, s.registry), db))
  {
    SnapshotHolds(s.caches, s.registry);
    var cs := Snapshot(s.caches, s.registry);
    OwnedByHolds(cs, db);
    var owned := OwnedBy(cs, db);
    forall i, j | 0 <= i < j < |owned| ensures owned[i].entry.lastUsed != owned[j].entry.lastUsed {
      assert owned[i] in owned && owned[j] in owned;
    }
    SortSorts(owned);
    forall c: Cached | c.slot.db == db && CachedIn(s.caches, c) ensures c in cs {
      assert EntryInv(usd, s, c.slot, c.entry);
    }
  }

  // ---------------------------------------------------------------- dropping

  /** Removing the first `n` of an order removes exactly those entries. */
  lemma {:induction false} WithoutFirstHolds(caches: map<Slot, Entry>, db: nat, cs: seq<Cached>, n: nat)
    requires n <= |cs|
    requires forall c :: c in cs ==> c.slot.db == db && CachedIn(caches, c)
    ensures var left := WithoutFirst(caches, db, cs, n);
            forall slot :: slot in left <==> slot in caches && forall i :: 0 <= i < n ==> cs[i].slot != slot
  {
    if n == 0 {
    } else {
      WithoutFirstHolds(caches, db, cs, n - 1);
      WithoutFirstIsFewer(caches, db, cs, n - 1);
      assert cs[n - 1] in cs;
      assert Slot(db, cs[n - 1].slot.key) == cs[n - 1].slot;
    }
  }

  lemma OwnedTotalCons(c: Cached, cs: seq<Cached>, db: nat)
    ensures TotalMemory(OwnedBy([c] + cs, db)) ==
            (if c.slot.db == db then c.entry.memory else 0) + TotalMemory(OwnedBy(cs, db))
  {
    assert ([c] + cs)[1..] == cs;
    assert ([c] + OwnedBy(cs, db))[1..] == OwnedBy(cs, db);
    assert [] + OwnedBy(cs, db) == OwnedBy(cs, db);
  }

  /** Removing a cached entry takes its memory off the total. */
  lemma {:induction false} RemoveTotal(caches: map<Slot, Entry>, registry: seq<WeakEntry>, db: nat, c: Cached)
    requires forall i, j :: 0 <= i < j < |registry| ==> registry[i] != registry[j]
    requires c.slot.db == db && CachedIn(caches, c)
    ensures TotalMemory(OwnedBy(Snapshot(caches, registry), db)) ==
            TotalMemory(OwnedBy(Snapshot(Remove(caches, db, c), registry), db)) +
            (if WeakEntry(c.slot, c.entry.id) in registry then c.entry.memory else 0)
  {
    assert Slot(db, c.slot.key) == c.slot;
    if registry == [] {
    } else {
      var w := registry[0];
      RemoveTotal(caches, registry[1..], db, c);
      assert w !in registry[1..];
      assert forall x :: x in registry <==> x == w || x in registry[1..];
      if Alive(caches, w) {
        var first := Cached(w.slot, caches[w.slot]);
        OwnedTotalCons(first, Snapshot(caches, registry[1..]), db);
        OwnedTotalCons(first, Snapshot(Remove(caches, db, c), registry[1..]), db);
      }
    }
  }

  lemma {:induction false} TotalSplit(cs: seq<Cached>, n: nat)
    requires n < |cs|
    ensures TotalMemory(cs[n..]) == cs[n].entry.memory + TotalMemory(cs[n + 1..])
  {
  }

  /** The running total of MakeRoom is the memory of what is still cached. */
  lemma {:induction false} WithoutFirstTotal(caches: map<Slot, Entry>, registry: seq<WeakEntry>, db: nat,
                                             order: seq<Cached>, n: nat)
    requires n <= |order|
    requires forall i, j :: 0 <= i < j < |registry| ==> registry[i] != registry[j]
    requires forall c :: c in order ==>
               c.slot.db == db && CachedIn(caches, c) && WeakEntry(c.slot, c.entry.id) in registry
    requires forall i, j :: 0 <= i < j < |order| ==> order[i].slot != order[j].slot
    requires TotalMemory(order) == TotalMemory(OwnedBy(Snapshot(caches, registry), db))
    ensures TotalMemory(OwnedBy(Snapshot(WithoutFirst(caches, db, order, n), registry), db)) ==
            TotalMemory(order[n..])
  {
    if n == 0 {
      assert order[0..] == order;
    } else {
      WithoutFirstTotal(caches, registry, db, order, n - 1);
      TotalSplit(order, n - 1);
      var c := order[n - 1];
      assert c in order;
      WithoutFirstHolds(caches, db, order, n - 1);
      WithoutFirstIsFewer(caches, db, order, n - 1);
      RemoveTotal(WithoutFirst(caches, db, order, n - 1), registry, db, c);
    }
  }

  lemma OrderTotal(usd: Usd, s: State, db: nat, n: nat)
    requires Inv(usd, s) && n <= |DropOrder(s, db)|
    ensures var order := DropOrder(s, db);
            TotalMemory(OwnedBy(Snapshot(WithoutFirst(s.caches, db, order, n), s.registry), db)) ==
            TotalMemory(order[n..])
  {
    hide DropOrder, TotalMemory, WithoutFirst, LayersInv, HandlesInv, RecentInv;
    var order := DropOrder(s, db);
    DropOrderHolds(usd, s, db);
    forall c: Cached | c in order ensures WeakEntry(c.slot, c.entry.id) in s.registry {
      assert EntryInv(usd, s, c.slot, c.entry);
    }
    forall i, j | 0 <= i < j < |order| ensures order[i].slot != order[j].slot {
      assert order[i] in order && order[j] in order;
    }
    WithoutFirstTotal(s.caches, s.registry, db, order, n);
  }

  /** MakeRoom drops the least recently used stages of its database, and no more of them than it takes: each was dropped
      while the new stage did not fit, those kept were used more recently, other databases keep theirs, and it only
      gives up once every stage of the database is dropped. `n` is the number of stages dropped. */
  lemma MakeRoomDropsOldest(usd: Usd, s: State, db: nat, memory: Memory, estimate: nat) returns (n: nat)
    requires Inv(usd, s)
    ensures var (t, fits) := MakeRoom(s, db, memory, estimate);
            var order := DropOrder(s, db);
            && n <= |order|
            && (forall slot :: slot in t.caches <==>
                  slot in s.caches && forall i :: 0 <= i < n ==> order[i].slot != slot)
            && (forall slot :: slot in t.caches ==> t.caches[slot] == s.caches[slot])
            && (forall slot, i :: 0 <= i < n && slot in t.caches && slot.db == db ==>
                  order[i].entry.lastUsed < t.caches[slot].lastUsed)
            && (forall slot :: slot in s.caches && slot.db != db ==> slot in t.caches)
            && (forall j :: 0 <= j < n ==> !FitsAfter(memory, s.caches, db, order, j, estimate))
            && (fits <==> Fits(memory, TotalMemory(OwnedBy(Snapshot(t.caches, t.registry), db)), t.caches, estimate))
            && (!fits ==> forall slot :: slot in t.caches ==> slot.db != db)
  {
    var order := DropOrder(s, db);
    DropOrderHolds(usd, s, db);
    n := DropCount(memory, s.caches, db, order, 0, estimate);
    WithoutFirstHolds(s.caches, db, order, n);
    WithoutFirstIsFewer(s.caches, db, order, n);
    OrderTotal(usd, s, db, n);
    var (t, fits) := MakeRoom(s, db, memory, estimate);
    forall slot | slot in t.caches && slot.db == db
      ensures n < |order| && forall i :: 0 <= i < n ==> order[i].entry.lastUsed < t.caches[slot].lastUsed
    {
      assert Cached(slot, s.caches[slot]) in order;
    }
    forall slot, i | slot in s.caches && slot.db != db && 0 <= i < n ensures order[i].slot != slot {
      assert order[i] in order;
    }
  }

  // ---------------------------------------------------------------- the budget

  lemma {:induction false} TotalAppend(a: seq<Cached>, b: seq<Cached>)
    ensures TotalMemory(a + b) == TotalMemory(a) + TotalMemory(b)
  {
    if a == [] {
      assert a + b == b;
    } else {
      assert (a + b)[1..] == a[1..] + b;
      TotalAppend(a[1..], b);
    }
  }

  lemma Assoc(a: seq<Cached>, b: seq<Cached>, c: seq<Cached>)
    ensures a + b + c == a + (b + c)
  {
  }

  lemma {:induction false} OwnedByAppend(a: seq<Cached>, b: seq<Cached>, db: nat)
    ensures OwnedBy(a + b, db) == OwnedBy(a, db) + OwnedBy(b, db)
  {
    if a == [] {
      assert a + b == b && [] + OwnedBy(b, db) == OwnedBy(b, db);
    } else {
      var first := if a[0].slot.db == db then [a[0]] else [];
      assert (a + b)[1..] == a[1..] + b;
      assert OwnedBy(a + b, db) == first + OwnedBy(a[1..] + b, db);
      assert OwnedBy(a, db) == first + OwnedBy(a[1..], db);
      hide OwnedBy;
      OwnedByAppend(a[1..], b, db);
      Assoc(first, OwnedBy(a[1..], db), OwnedBy(b, db));
    }
  }

  lemma {:induction false} SnapshotAppend(caches: map<Slot, Entry>, a: seq<WeakEntry>, b: seq<WeakEntry>)
    ensures Snapshot(caches, a + b) == Snapshot(caches, a) + Snapshot(caches, b)
  {
    if a == [] {
      assert a + b == b && [] + Snapshot(caches, b) == Snapshot(caches, b);
    } else {
      var first := if Alive(caches, a[0]) then [Cached(a[0].slot, caches[a[0].slot])] else [];
      assert (a + b)[1..] == a[1..] + b;
      assert Snapshot(caches, a + b) == first + Snapshot(caches, a[1..] + b);
      assert Snapshot(caches, a) == first + Snapshot(caches, a[1..]);
      hide Snapshot;
      SnapshotAppend(caches, a[1..], b);
      Assoc(first, Snapshot(caches, a[1..]), Snapshot(caches, b));
    }
  }

  /** Neither purging the registry nor adding an entry to an empty slot changes what was in the snapshot. */
  lemma {:induction false} SnapshotPurged(caches: map<Slot, Entry>, before: map<Slot, Entry>, registry: seq<WeakEntry>,
                                          slot: Slot)
    requires slot !in before && slot in caches && caches == before[slot := caches[slot]]
    requires forall w :: w in registry ==> w.id != caches[slot].id
    ensures Snapshot(caches, Purged(caches, registry)) == Snapshot(before, registry)
  {
    if registry == [] {
    } else {
      assert registry[0] in registry;
      SnapshotPurged(caches, before, registry[1..], slot);
      assert Alive(caches, registry[0]) <==> Alive(before, registry[0]);
      if Alive(caches, registry[0]) {
        assert Purged(caches, registry)[1..] == Purged(caches, registry[1..]);
      } else {
        assert Purged(caches, registry) == Purged(caches, registry[1..]);
      }
    }
  }

  /** The memory of the stages that `db` has cached. */
  function CachedMemory(s: State, db: nat): nat {
    TotalMemory(OwnedBy(Snapshot(s.caches, s.registry), db))
  }

  /** A stage was just cached: the cached stages of its database take at most half of the memory limit, and the new one
      did not push the memory in use over it, with 2.5 KiB for each prim and 512 KiB for each layer. */
  ghost predicate WithinBudget(usd: Usd, t: State, r: Request, stage: Stage) {
    && Slot(r.db, r.key) in t.caches
    && CachedMemory(t, r.db) <= r.memory.limit / 2
    && t.caches[Slot(r.db, r.key)].memory == usd.primCount(stage) * 2560 + |stage.layers| * 524288
    && r.memory.used(t.caches - {Slot(r.db, r.key)}) + t.caches[Slot(r.db, r.key)].memory <= r.memory.limit
  }

  /** Adding a stage to its empty slot adds its estimate to the total. */
  lemma CacheTotal(usd: Usd, s: State, r: Request, h: Handle, estimate: nat)
    requires Inv(usd, s) && Slot(r.db, r.key) !in s.caches
    ensures CachedMemory(Cache(s, r, h, estimate), r.db) == CachedMemory(s, r.db) + estimate
  {
    hide LayersInv, HandlesInv, CachesInv, RecentInv, Purged, MissingStamps;
    var slot := Slot(r.db, r.key);
    var t := Cache(s, r, h, estimate);
    var w := WeakEntry(slot, s.nextId);
    var before := Snapshot(s.caches, s.registry);
    assert t.caches == s.caches[slot := t.caches[slot]];
    SnapshotPurged(t.caches, s.caches, s.registry, slot);
    SnapshotAppend(t.caches, Purged(t.caches, s.registry), [w]);
    var c := Cached(slot, t.caches[slot]);
    assert Snapshot(t.caches, [w]) == [c] + Snapshot(t.caches, [w][1..]);
    assert Snapshot(t.caches, t.registry) == before + [c];
    OwnedByAppend(before, [c], r.db);
    TotalAppend(OwnedBy(before, r.db), OwnedBy([c], r.db));
    OwnedTotalCons(c, [], r.db);
    assert [c] + [] == [c];
  }

  lemma FinishUnfolds(usd: Usd, s: State, r: Request, stage: Stage, warned: bool)
    ensures var h := Handle(s.nextId, stage);
            var estimate := EstimateStageMemory(usd, stage);
            var (s2, fits) := MakeRoom(s.(nextId := s.nextId + 1), r.db, r.memory, estimate);
            var (t, o) := Finish(usd, s, r, stage, warned);
            var cached := r.cacheEnabled && !warned && fits;
            if !MayReadAll(r, stage) then o == Refused && t == Collect(s)
            else o == Served(h, Opened(cached), warned) &&
                 (cached ==> t == Collect(Hold(Cache(s2, r, h, estimate), r, h)))
  {
    hide MakeRoom, EstimateStageMemory, Collect, Hold, Cache;
  }

  lemma MemoryOf(s: State, db: nat)
    ensures CachedMemory(s, db) == TotalMemory(OwnedBy(Snapshot(s.caches, s.registry), db))
  {
  }

  lemma BudgetFromFits(usd: Usd, s: State, r: Request, h: Handle)
    requires Slot(r.db, r.key) !in s.caches
    requires Fits(r.memory, CachedMemory(s, r.db), s.caches, EstimateStageMemory(usd, h.stage))
    requires var estimate := EstimateStageMemory(usd, h.stage);
             CachedMemory(Cache(s, r, h, estimate), r.db) == CachedMemory(s, r.db) + estimate
    ensures var t := Collect(Hold(Cache(s, r, h, EstimateStageMemory(usd, h.stage)), r, h));
            WithinBudget(usd, t, r, h.stage)
  {
    hide OwnedBy, Snapshot, Purged, MissingStamps, Handles;
    var slot := Slot(r.db, r.key);
    assert Cache(s, r, h, EstimateStageMemory(usd, h.stage)).caches - {slot} == s.caches;
  }

  lemma FinishWithinBudget(usd: Usd, s: State, r: Request, stage: Stage, warned: bool)
    requires Inv(usd, s) && Slot(r.db, r.key) !in s.caches
    ensures var (t, o) := Finish(usd, s, r, stage, warned);
            o.Served? && o.source == Opened(true) ==>
              !warned && o.handle.stage == stage && WithinBudget(usd, t, r, stage)
  {
    hide *;
    var h := Handle(s.nextId, stage);
    var s1 := s.(nextId := s.nextId + 1);
    var estimate := EstimateStageMemory(usd, stage);
    FinishUnfolds(usd, s, r, stage, warned);
    if MayReadAll(r, stage) && r.cacheEnabled && !warned {
      NextIdKeeps(usd, s);
      var (s2, fits) := MakeRoom(s1, r.db, r.memory, estimate);
      var n := MakeRoomDropsOldest(usd, s1, r.db, r.memory, estimate);
      MakeRoomKeeps(usd, s1, r.db, r.memory, estimate);
      if fits {
        CacheTotal(usd, s2, r, h, estimate);
        MemoryOf(s2, r.db);
        BudgetFromFits(usd, s2, r, h);
      }
    }
  }
}
