/** What holds in every run: the memory budget, and that databases keep out of each other's caches. */
module UsdStageRuns {
  import opened Wrappers
  import opened UsdStageModel
  import opened UsdStageInvariant
  import opened UsdStageFreshness
  import opened UsdStageRelease
  import opened UsdStageBudget

  // ---------------------------------------------------------------- the budget

  lemma MissEmptiesSlot(s: State, r: Request)
    ensures var (t, lookup) := LookUp(s, r);
            lookup.Miss? && r.cacheEnabled ==> Slot(r.db, r.key) !in t.caches
  {
  }

  lemma FinishBudget(usd: Usd, s: State, r: Request, stage: Stage, warned: bool)
    requires Inv(usd, s) && (r.cacheEnabled ==> Slot(r.db, r.key) !in s.caches)
    ensures var (t, o) := Finish(usd, s, r, stage, warned);
            o.Served? && o.source == Opened(true) ==> !o.warned && WithinBudget(usd, t, r, o.handle.stage)
  {
    FinishServes(usd, s, r, stage, warned);
    if r.cacheEnabled { FinishWithinBudget(usd, s, r, stage, warned); }
  }

  lemma OpenUncachedWithinBudget(usd: Usd, s: State, r: Request)
    requires Inv(usd, s) && (r.cacheEnabled ==> Slot(r.db, r.key) !in s.caches)
    ensures var (t, o) := OpenUncached(usd, s, r);
            o.Served? && o.source == Opened(true) ==>
            !o.warned && WithinBudget(usd, t, r, o.handle.stage)
  {
    hide Inv, WithinBudget, Finish, FreshOpen, OutOfDate, WellComposed;
    OpenStageAttempt(usd, s, r.key);
    match OpenStage(usd, s, r.key)
    case None =>
    case Some((s1, stage)) =>
      var changed := ChangedLayers(s1, stage.layers);
      var s2 := RecordLayers(s1, stage.layers);
      FinishBudget(usd, s2, r, stage, false);
      if changed != map[] {
        LetGoKeeps(usd, s2, r.db, changed);
        var s3 := LetGo(s2, r.db, changed);
        OpenStageAttempt(usd, s3, r.key);
        match OpenStage(usd, s3, r.key)
        case None =>
        case Some((s4, again)) =>
          FinishBudget(usd, RecordLayers(s4, again.layers), r, again, ChangedLayers(s4, again.layers) != map[]);
      }
  }

  lemma OpenNewWithinBudget(usd: Usd, s: State, r: Request)
    requires Inv(usd, s)
    ensures var (t, o) := OpenNew(usd, s, r);
            o.Served? && o.source == Opened(true) ==> !o.warned && WithinBudget(usd, t, r, o.handle.stage)
  {
    hide Inv, WithinBudget, OpenUncached, LookUp, Honest, Hold;
    LookUpKeeps(usd, s, r);
    MissEmptiesSlot(s, r);
    if LookUp(s, r).1.Miss? { OpenUncachedWithinBudget(usd, LookUp(s, r).0, r); }
  }

  /** In every run, right after an open caches its stage, the stages of that database take at most half of the memory
      limit, and the memory in use stayed within the limit; a stage that was warned about is not cached. */
  lemma OpenWithinBudget(usd: Usd, ops: seq<Op>, r: Request)
    ensures var (t, o) := Open(usd, Run(usd, INITIAL, ops), r);
            o.Served? && o.source == Opened(true) ==> !o.warned && WithinBudget(usd, t, r, o.handle.stage)
  {
    hide Inv, WithinBudget, OpenNew, IsShared, Run, Forget;
    RunHolds(usd, ops);
    var s := Run(usd, INITIAL, ops);
    ForgetKeeps(usd, s, r);
    OpenNewWithinBudget(usd, Forget(s, r), r);
  }

  // ---------------------------------------------------------------- other databases

  /** What an open may do to the caches of other databases: entries stay where they are, and one is released only if it
      uses a layer that is out of date. */
  ghost predicate OthersKeep(s: State, t: State, db: nat) {
    forall slot: Slot :: slot.db != db ==>
      && (slot in t.caches <==> slot in s.caches)
      && (slot in s.caches ==>
            t.caches[slot] == s.caches[slot] ||
            (s.caches[slot].handle.Some? && t.caches[slot] == s.caches[slot].(handle := None) &&
             OutOfDate(s.files, s.caches[slot].handle.value.stage.layers) != map[]))
  }

  lemma OthersKeepTwice(s: State, t: State, u: State, db: nat)
    requires OthersKeep(s, t, db) && OthersKeep(t, u, db) && t.files == s.files
    ensures OthersKeep(s, u, db)
  {
  }

  lemma ReleaseOthers(s: State, t: State, db: nat, changed: map<Path, Layer>)
    requires t.caches == Release(s.caches, db, changed)
    requires forall p :: p in changed ==> changed[p].stamp != StampOf(s.files, p)
    ensures OthersKeep(s, t, db)
  {
    forall slot | slot in s.caches && UsesChanged(s.caches[slot], changed)
      ensures OutOfDate(s.files, s.caches[slot].handle.value.stage.layers) != map[]
    {
      var layers := s.caches[slot].handle.value.stage.layers;
      var p :| p in layers && p in changed && changed[p] == layers[p];
      assert p in OutOfDate(s.files, layers);
    }
  }

  /** Only the entry in `slot` differs. */
  lemma DropSlotOthers(s: State, t: State, slot: Slot)
    requires t.files == s.files
    requires forall x :: x != slot ==>
               (x in t.caches <==> x in s.caches) && (x in s.caches ==> t.caches[x] == s.caches[x])
    ensures OthersKeep(s, t, slot.db)
  {
  }

  function LookupReleases(s: State, r: Request): map<Path, Layer> {
    var slot := Slot(r.db, r.key);
    if slot in s.caches && s.caches[slot].handle.Some?
    then OutOfDate(s.files, s.caches[slot].handle.value.stage.layers) else map[]
  }

  /** What a lookup changes: it may release what uses a changed layer, and touch or remove the entry it looks up. */
  lemma FindCachedStageFrame(usd: Usd, s: State, r: Request)
    requires Inv(usd, s)
    ensures var slot := Slot(r.db, r.key);
            var t := FindCachedStage(s, r).0;
            var changed := LookupReleases(s, r);
            var caches := if changed != map[] then Release(s.caches, r.db, changed) else s.caches;
            && t.files == s.files
            && forall x :: x != slot ==>
                 (x in t.caches <==> x in caches) && (x in caches ==> t.caches[x] == caches[x])
  {
    hide Inv, LayersInv, HandleInv, Release, RecordLayers, ChangedLayers, MissingAssetsChanged, Handles, MayReadAll;
    var slot := Slot(r.db, r.key);
    if slot in s.caches && s.caches[slot].handle.Some? {
      CachedStageInMemory(usd, s, slot);
      RecordSeen(usd, s, s.caches[slot].handle.value.stage.layers);
    }
  }

  lemma FindCachedStageOthers(usd: Usd, s: State, r: Request)
    requires Inv(usd, s)
    ensures OthersKeep(s, FindCachedStage(s, r).0, r.db)
  {
    hide Inv, Release, OthersKeep, FindCachedStage;
    FindCachedStageFrame(usd, s, r);
    var changed := LookupReleases(s, r);
    var t := s.(caches := if changed != map[] then Release(s.caches, r.db, changed) else s.caches);
    if changed != map[] {
      ReleaseOthers(s, t, r.db, changed);
    } else {
      DropSlotOthers(s, t, Slot(r.db, r.key));
    }
    DropSlotOthers(t, FindCachedStage(s, r).0, Slot(r.db, r.key));
    OthersKeepTwice(s, t, FindCachedStage(s, r).0, r.db);
  }

  lemma MakeRoomOthers(usd: Usd, s: State, db: nat, memory: Memory, estimate: nat)
    requires Inv(usd, s)
    ensures OthersKeep(s, MakeRoom(s, db, memory, estimate).0, db)
  {
    hide Inv, DropOrder, Fits, TotalMemory, MakeRoom;
    var n := MakeRoomDropsOldest(usd, s, db, memory, estimate);
  }

  lemma FinishOthers(usd: Usd, s: State, r: Request, stage: Stage, warned: bool)
    requires Inv(usd, s)
    ensures OthersKeep(s, Finish(usd, s, r, stage, warned).0, r.db)
  {
    hide Inv, EstimateStageMemory, MakeRoom, Handles, Purged, MissingStamps, OutOfDate;
    var s1 := s.(nextId := s.nextId + 1);
    var estimate := EstimateStageMemory(usd, stage);
    NextIdKeeps(usd, s);
    DropSlotOthers(s, s, Slot(r.db, r.key));
    MakeRoomOthers(usd, s1, r.db, r.memory, estimate);
    MakeRoomKeeps(usd, s1, r.db, r.memory, estimate);
  }

  lemma OpenStageFrame(usd: Usd, s: State, key: StageKey)
    requires OpenStage(usd, s, key).Some?
    ensures var (s1, stage) := OpenStage(usd, s, key).value;
            var s2 := RecordLayers(s1, stage.layers);
            s2.caches == s.caches && s2.files == s.files && s2.nextId == s.nextId
  {
  }

  lemma SameCachesOthers(s: State, t: State, u: State, db: nat)
    requires t.caches == s.caches && t.files == s.files && OthersKeep(t, u, db)
    ensures OthersKeep(s, u, db)
  {
  }

  lemma OpenUncachedOthers(usd: Usd, s: State, r: Request)
    requires Inv(usd, s)
    ensures OthersKeep(s, OpenUncached(usd, s, r).0, r.db)
  {
    hide Inv, Finish, FreshOpen, WellComposed, OthersKeep, ChangedLayers, OpenStage, RecordLayers, Release, Handles;
    OpenStageAttempt(usd, s, r.key);
    match OpenStage(usd, s, r.key)
    case None =>
      assert OthersKeep(s, s, r.db) by { DropSlotOthers(s, s, Slot(r.db, r.key)); }
    case Some((s1, stage)) =>
      OpenStageFrame(usd, s, r.key);
      var changed := ChangedLayers(s1, stage.layers);
      var s2 := RecordLayers(s1, stage.layers);
      if changed == map[] {
        FinishOthers(usd, s2, r, stage, false);
        SameCachesOthers(s, s2, OpenUncached(usd, s, r).0, r.db);
      } else {
        LetGoKeeps(usd, s2, r.db, changed);
        var s3 := LetGo(s2, r.db, changed);
        ReleaseOthers(s, s3, r.db, changed);
        OpenStageAttempt(usd, s3, r.key);
        match OpenStage(usd, s3, r.key)
        case None =>
        case Some((s4, again)) =>
          OpenStageFrame(usd, s3, r.key);
          var s5 := RecordLayers(s4, again.layers);
          var warned := ChangedLayers(s4, again.layers) != map[];
          FinishOthers(usd, s5, r, again, warned);
          SameCachesOthers(s3, s5, OpenUncached(usd, s, r).0, r.db);
          OthersKeepTwice(s, s3, OpenUncached(usd, s, r).0, r.db);
      }
  }

  lemma SameCachesThen(s: State, t: State, u: State, db: nat)
    requires OthersKeep(s, t, db) && u.caches == t.caches
    ensures OthersKeep(s, u, db)
  {
  }

  lemma OpenNewOthers(usd: Usd, s: State, r: Request)
    requires Inv(usd, s)
    ensures OthersKeep(s, OpenNew(usd, s, r).0, r.db)
  {
    hide Inv, FindCachedStage, OpenUncached, OthersKeep, Honest;
    LookUpKeeps(usd, s, r);
    FindCachedStageOthers(usd, s, r);
    DropSlotOthers(s, s, Slot(r.db, r.key));
    var (s1, lookup) := LookUp(s, r);
    OpenUncachedOthers(usd, s1, r);
    OthersKeepTwice(s, s1, OpenUncached(usd, s1, r).0, r.db);
    if lookup.Hit? { SameCachesThen(s, s1, Hold(s1, r, lookup.handle), r.db); }
  }

  /** Opening a stage leaves the entries of other databases in their caches, also those cached under the same key. */
  lemma OpenOthers(usd: Usd, s: State, r: Request)
    requires Inv(usd, s)
    ensures OthersKeep(s, Open(usd, s, r).0, r.db)
  {
    hide Inv, OpenNew, OthersKeep, Handles;
    ForgetKeeps(usd, s, r);
    OpenNewOthers(usd, Forget(s, r), r);
    DropSlotOthers(s, s, Slot(r.db, r.key));
    if IsShared(s, r) {
      SameCachesThen(s, s, Open(usd, s, r).0, r.db);
    } else {
      SameCachesOthers(s, Forget(s, r), Open(usd, s, r).0, r.db);
    }
  }

  /** Dropping the stages of a database empties its own cache of them and touches no other database's. */
  lemma DropEmpties(usd: Usd, s: State, db: nat)
    requires Inv(usd, s)
    ensures var t := DropCachedStages(s, db);
            && (forall slot :: slot in t.caches <==> slot in s.caches && slot.db != db)
            && (forall slot :: slot in t.caches ==> t.caches[slot] == s.caches[slot])
  {
    hide LayersInv, HandlesInv, RecentInv, Handles;
    SnapshotHolds(s.caches, s.registry);
    var all := Snapshot(s.caches, s.registry);
    OwnedByHolds(all, db);
    var cs := OwnedBy(all, db);
    WithoutFirstHolds(s.caches, db, cs, |cs|);
    WithoutFirstIsFewer(s.caches, db, cs, |cs|);
    forall slot | slot in s.caches ensures slot.db == db <==> exists i :: 0 <= i < |cs| && cs[i].slot == slot {
      if slot.db == db {
        assert EntryInv(usd, s, slot, s.caches[slot]);
        assert Cached(slot, s.caches[slot]) in all;
        assert Cached(slot, s.caches[slot]) in cs;
      } else {
        forall i | 0 <= i < |cs| ensures cs[i].slot != slot { assert cs[i] in cs; }
      }
    }
  }

  // ---------------------------------------------------------------- released entries

  /** The entries of `t` are entries of `s`, possibly released, or new. */
  ghost predicate Descends(s: State, t: State) {
    s.nextId <= t.nextId &&
    forall slot :: slot in t.caches ==>
      t.caches[slot].id >= s.nextId ||
      (slot in s.caches && t.caches[slot].id == s.caches[slot].id &&
       t.caches[slot].missing == s.caches[slot].missing &&
       (t.caches[slot].handle == s.caches[slot].handle || t.caches[slot].handle.None?))
  }

  lemma DescendsTwice(s: State, t: State, u: State)
    requires Descends(s, t) && Descends(t, u)
    ensures Descends(s, u)
  {
  }

  lemma FewerDescends(s: State, t: State)
    requires Fewer(t.caches, s.caches) && s.nextId <= t.nextId
    ensures Descends(s, t)
  {
  }

  /** Only the entry in `slot` differs from those of `before`, and not in what it serves. */
  lemma TouchDescends(before: State, t: State, slot: Slot, time: nat)
    requires slot in before.caches && t.caches == before.caches[slot := before.caches[slot].(lastUsed := time)]
    requires t.nextId == before.nextId
    ensures Descends(before, t)
  {
  }

  lemma RemovedDescends(s: State, t: State, caches: map<Slot, Entry>, slot: Slot)
    requires Fewer(caches, s.caches) && t.caches == caches - {slot} && t.nextId == s.nextId
    ensures Descends(s, t)
  {
  }

  lemma SameIsFewer(caches: map<Slot, Entry>)
    ensures Fewer(caches, caches)
  {
  }

  lemma SameDescends(s: State, t: State)
    requires t.caches == s.caches && s.nextId <= t.nextId
    ensures Descends(s, t)
  {
  }

  lemma FindCachedStageDescends(s: State, r: Request)
    ensures Descends(s, FindCachedStage(s, r).0)
  {
    hide ChangedLayers, MissingAssetsChanged, Handles, Release, Descends, Fewer, MayReadAll;
    var slot := Slot(r.db, r.key);
    var t := FindCachedStage(s, r).0;
    assert Fewer(s.caches, s.caches) by { SameIsFewer(s.caches); }
    FewerDescends(s, s);
    if slot in s.caches {
      RemovedDescends(s, s.(caches := s.caches - {slot}), s.caches, slot);
      if s.caches[slot].handle.Some? {
        var layers := s.caches[slot].handle.value.stage.layers;
        var changed := ChangedLayers(s, layers);
        ReleaseIsFewer(s.caches, r.db, changed);
        var released := if changed != map[] then Release(s.caches, r.db, changed) else s.caches;
        match FindCachedStage(s, r).1
        case Hit(_) => TouchDescends(s, t, slot, s.clock + 1);
        case Denied => SameDescends(s, t);
        case Miss => RemovedDescends(s, t, released, slot);
      }
    }
  }

  lemma CacheDescends(s: State, r: Request, h: Handle, estimate: nat)
    ensures Descends(s, Cache(s, r, h, estimate))
  {
    hide Purged, MissingStamps;
  }

  lemma MakeRoomDescends(s: State, db: nat, memory: Memory, estimate: nat)
    ensures Descends(s, MakeRoom(s, db, memory, estimate).0)
  {
    hide DropOrder, DropCount, FitsAfter;
    var order := DropOrder(s, db);
    WithoutFirstIsFewer(s.caches, db, order, DropCount(memory, s.caches, db, order, 0, estimate));
  }

  /** The caches after the rest of an open. */
  lemma FinishIsOneOf(usd: Usd, s: State, r: Request, stage: Stage, warned: bool)
    ensures var s1 := s.(nextId := s.nextId + 1);
            var s2 := MakeRoom(s1, r.db, r.memory, EstimateStageMemory(usd, stage)).0;
            var s3 := Cache(s2, r, Handle(s.nextId, stage), EstimateStageMemory(usd, stage));
            var t := Finish(usd, s, r, stage, warned).0;
            || (t.caches == s.caches && s.nextId <= t.nextId <= s1.nextId)
            || (t.caches == s2.caches && t.nextId == s2.nextId)
            || (t.caches == s3.caches && t.nextId == s3.nextId)
  {
    hide MakeRoom, Cache, Handles, EstimateStageMemory, MayReadAll;
  }

  lemma FinishDescends(usd: Usd, s: State, r: Request, stage: Stage, warned: bool)
    ensures Descends(s, Finish(usd, s, r, stage, warned).0)
  {
    hide MakeRoom, Cache, Handles, EstimateStageMemory, Descends, MayReadAll;
    var h := Handle(s.nextId, stage);
    var s1 := s.(nextId := s.nextId + 1);
    var estimate := EstimateStageMemory(usd, stage);
    var s2 := MakeRoom(s1, r.db, r.memory, estimate).0;
    var s3 := Cache(s2, r, h, estimate);
    var t := Finish(usd, s, r, stage, warned).0;
    SameDescends(s, s1);
    MakeRoomDescends(s1, r.db, r.memory, estimate);
    DescendsTwice(s, s1, s2);
    CacheDescends(s2, r, h, estimate);
    DescendsTwice(s, s2, s3);
    FinishIsOneOf(usd, s, r, stage, warned);
    if t.caches == s.caches && s.nextId <= t.nextId {
      SameDescends(s, t);
    } else if t.caches == s2.caches && t.nextId == s2.nextId {
      SameDescends(s2, t);
      DescendsTwice(s, s2, t);
    } else {
      SameDescends(s3, t);
      DescendsTwice(s, s3, t);
    }
  }

  lemma OpenUncachedDescends(usd: Usd, s: State, r: Request)
    ensures Descends(s, OpenUncached(usd, s, r).0)
  {
    hide Finish, ChangedLayers, OpenStage, RecordLayers, Handles, Descends;
    FewerDescends(s, s);
    match OpenStage(usd, s, r.key)
    case None =>
    case Some((s1, stage)) =>
      OpenStageFrame(usd, s, r.key);
      var changed := ChangedLayers(s1, stage.layers);
      var s2 := RecordLayers(s1, stage.layers);
      FewerDescends(s, s2);
      if changed == map[] {
        FinishDescends(usd, s2, r, stage, false);
        DescendsTwice(s, s2, OpenUncached(usd, s, r).0);
      } else {
        var s3 := LetGo(s2, r.db, changed);
        ReleaseIsFewer(s2.caches, r.db, changed);
        FewerDescends(s, s3);
        match OpenStage(usd, s3, r.key)
        case None =>
        case Some((s4, again)) =>
          OpenStageFrame(usd, s3, r.key);
          var s5 := RecordLayers(s4, again.layers);
          FewerDescends(s3, s5);
          FinishDescends(usd, s5, r, again, ChangedLayers(s4, again.layers) != map[]);
          DescendsTwice(s3, s5, OpenUncached(usd, s, r).0);
          DescendsTwice(s, s3, OpenUncached(usd, s, r).0);
      }
  }

  lemma OpenDescends(usd: Usd, s: State, r: Request)
    ensures Descends(s, Open(usd, s, r).0)
  {
    hide FindCachedStage, OpenUncached, Handles, Descends;
    FewerDescends(s, s);
    FewerDescends(s, Forget(s, r));
    if IsShared(s, r) {
      FewerDescends(s, Open(usd, s, r).0);
    } else {
      var s0 := Forget(s, r);
      FindCachedStageDescends(s0, r);
      FewerDescends(s0, s0);
      var (s1, lookup) := LookUp(s0, r);
      OpenUncachedDescends(usd, s1, r);
      DescendsTwice(s0, s1, OpenUncached(usd, s1, r).0);
      if lookup.Hit? {
        FewerDescends(s1, Hold(s1, r, lookup.handle));
        DescendsTwice(s0, s1, Hold(s1, r, lookup.handle));
      }
      DescendsTwice(s, s0, Open(usd, s, r).0);
    }
  }

  lemma StepDescends(usd: Usd, s: State, op: Op)
    ensures Descends(s, Step(usd, s, op))
  {
    hide Open, Snapshot, OwnedBy, Handles;
    match op
    case OpenStageOp(r) => OpenDescends(usd, s, r);
    case Drop(db) =>
      var cs := OwnedBy(Snapshot(s.caches, s.registry), db);
      WithoutFirstIsFewer(s.caches, db, cs, |cs|);
    case _ =>
  }

  lemma {:induction false} RunDescends(usd: Usd, s: State, ops: seq<Op>)
    ensures Descends(s, Run(usd, s, ops))
    decreases |ops|
  {
    if ops == [] {
    } else {
      StepDescends(usd, s, ops[0]);
      RunDescends(usd, Step(usd, s, ops[0]), ops[1..]);
      DescendsTwice(s, Step(usd, s, ops[0]), Run(usd, s, ops));
    }
  }

  /** No entry of the object caches with this identity has a stage to serve. */
  ghost predicate Released(s: State, id: nat) {
    id < s.nextId && forall slot :: slot in s.caches && s.caches[slot].id == id ==> s.caches[slot].handle.None?
  }

  /** An entry that was released, or left its cache, is never served again: in no continuation of the run does its
      identity have a stage, and a cache hit always comes from an entry that has one. */
  lemma ReleasedNeverServed(usd: Usd, s: State, ops: seq<Op>, id: nat, r: Request)
    requires Released(s, id)
    ensures var t := Run(usd, s, ops);
            && Released(t, id)
            && (FindCachedStage(t, r).1.Hit? ==>
                  t.caches[Slot(r.db, r.key)].id != id &&
                  t.caches[Slot(r.db, r.key)].handle == Some(FindCachedStage(t, r).1.handle))
  {
    RunDescends(usd, s, ops);
  }
}
