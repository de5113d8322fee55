/** Opening a stage either says that a file changed while it was being read, or gives what a fresh process would. */
module UsdStageFreshness {
  import opened Wrappers
  import opened UsdStageModel
  import opened UsdStageInvariant

  /** What the stage is, whichever loads its layers came from. */
  function Content(stage: Stage): (map<Path, FileStamp>, set<Path>) {
    (Versions(stage), stage.missing)
  }

  /** A stage with no layer out of date, and whose missing assets are still missing, is what composing from the current
      files gives, and no other stage is. */
  lemma UpToDateIsFresh(usd: Usd, files: map<Path, FileStamp>, stage: Stage)
    requires WellComposed(usd, stage)
    requires forall p :: p in stage.layers ==> Readable(usd, p, stage.layers[p].stamp)
    requires forall p :: p in stage.missing ==> !Readable(usd, p, StampOf(files, p))
    ensures OutOfDate(files, stage.layers) == map[] <==> FreshOpen(usd, files, stage.key) == Some(Content(stage))
  {
    var disk := OnDisk(usd, files);
    if OutOfDate(files, stage.layers) == map[] {
      forall p | p in stage.layers ensures p in disk && disk[p] == stage.layers[p].stamp {
        assert p !in OutOfDate(files, stage.layers);
      }
      ComposeAgrees(usd, stage.key, Versions(stage), disk);
    } else if FreshOpen(usd, files, stage.key) == Some(Content(stage)) {
      ComposeReads(usd, stage.key, disk);
      assert forall p :: p in stage.layers ==> p in Versions(stage);
    }
  }

  // ---------------------------------------------------------------- the database cache

  /** The layers of a cached stage are readable and in memory. */
  lemma CachedStageInMemory(usd: Usd, s: State, slot: Slot)
    requires Inv(usd, s) && slot in s.caches && s.caches[slot].handle.Some?
    ensures var stage := s.caches[slot].handle.value.stage;
            && LayersInv(usd, s) && InMemory(stage.layers, s.live) && WellComposed(usd, stage) && stage.key == slot.key
            && s.caches[slot].missing.Keys == stage.missing
            && HandleInv(usd, s.live, s.nextId, s.caches[slot].handle.value)
  {
    assert s.caches[slot].handle.value in Handles(s);
    assert EntryInv(usd, s, slot, s.caches[slot]);
  }

  /** A stage from the database cache is what opening it in a fresh process would give: the files it read have not
      changed, so reading them again asks for the same files in the same order. */
  lemma CacheHitIsFresh(usd: Usd, s: State, r: Request)
    requires Inv(usd, s)
    requires FindCachedStage(s, r).1.Hit?
    ensures var h := FindCachedStage(s, r).1.handle;
            && h.stage.key == r.key
            && FreshOpen(usd, s.files, r.key) == Some(Content(h.stage))
            && OutOfDate(s.files, h.stage.layers) == map[]
            && MayReadAll(r, h.stage)
  {
    var slot := Slot(r.db, r.key);
    var e := s.caches[slot];
    var stage := e.handle.value.stage;
    CachedStageInMemory(usd, s, slot);
    RecordSeen(usd, s, stage.layers);
    forall p | p in stage.missing ensures !Readable(usd, p, StampOf(s.files, p)) {
      assert EntryInv(usd, s, slot, e);
      assert p in e.missing;
    }
    UpToDateIsFresh(usd, s.files, stage);
  }

  /** Releasing what uses a changed layer, and removing one entry. */
  lemma DropEntryKeeps(usd: Usd, s: State, slot: Slot, changed: map<Path, Layer>)
    requires Inv(usd, s)
    ensures var released := if changed != map[] then Release(s.caches, slot.db, changed) else s.caches;
            var t := Collect(s.(caches := released - {slot}));
            Inv(usd, t) && t.files == s.files && t.scans == s.scans && t.recent == s.recent
  {
    hide Inv, Release;
    var released := if changed != map[] then Release(s.caches, slot.db, changed) else s.caches;
    var t := s.(caches := released - {slot});
    ReleaseIsFewer(s.caches, slot.db, changed);
    FewerKeeps(usd, t, s);
    CollectKeeps(usd, t);
  }

  lemma TouchKeeps(usd: Usd, s: State, slot: Slot)
    requires Inv(usd, s) && slot in s.caches
    ensures Inv(usd, s.(clock := s.clock + 1, caches := s.caches[slot := s.caches[slot].(lastUsed := s.clock + 1)]))
  {
    hide WellComposed, Readable;
    var t := s.(clock := s.clock + 1, caches := s.caches[slot := s.caches[slot].(lastUsed := s.clock + 1)]);
    assert Handles(t) <= Handles(s);
    forall x | x in t.caches ensures EntryInv(usd, t, x, t.caches[x]) {
      assert EntryInv(usd, s, x, s.caches[x]);
    }
    forall a, b | a in t.caches && b in t.caches && a != b
      ensures t.caches[a].id != t.caches[b].id && t.caches[a].lastUsed != t.caches[b].lastUsed
    {
      assert EntryInv(usd, s, a, s.caches[a]) && EntryInv(usd, s, b, s.caches[b]);
    }
  }

  lemma FindCachedStageKeeps(usd: Usd, s: State, r: Request)
    requires Inv(usd, s)
    ensures var (t, lookup) := FindCachedStage(s, r);
            && Inv(usd, t) && t.files == s.files && t.scans == s.scans && t.recent == s.recent
            && (lookup.Hit? ==> lookup.handle.stage.key == r.key && HandleInv(usd, t.live, t.nextId, lookup.handle))
            && (lookup.Denied? ==> exists p :: !r.mayRead(p))
  {
    hide Inv, LayersInv, HandleInv, Release, RecordLayers, ChangedLayers, MissingAssetsChanged, Collect, WellComposed;
    var slot := Slot(r.db, r.key);
    var (t, lookup) := FindCachedStage(s, r);
    if slot in s.caches {
      var e := s.caches[slot];
      if e.handle.None? {
        FewerKeeps(usd, t, s);
      } else {
        var layers := e.handle.value.stage.layers;
        CachedStageInMemory(usd, s, slot);
        RecordSeen(usd, s, layers);
        if lookup.Hit? {
          TouchKeeps(usd, s, slot);
        } else if lookup.Miss? {
          DropEntryKeeps(usd, s, slot, ChangedLayers(s, layers));
        }
      }
    }
  }

  // ---------------------------------------------------------------- the whole of Open

  lemma MakeRoomKeeps(usd: Usd, s: State, db: nat, memory: Memory, estimate: nat)
    requires Inv(usd, s)
    ensures var t := MakeRoom(s, db, memory, estimate).0;
            Inv(usd, t) && t == s.(caches := t.caches)
  {
    var order := DropOrder(s, db);
    var n := DropCount(memory, s.caches, db, order, 0, estimate);
    WithoutFirstIsFewer(s.caches, db, order, n);
    FewerKeeps(usd, s.(caches := WithoutFirst(s.caches, db, order, n)), s);
  }

  lemma FinishKeeps(usd: Usd, s: State, r: Request, stage: Stage, warned: bool)
    requires Inv(usd, s)
    requires stage.key == r.key && InMemory(stage.layers, s.live) && WellComposed(usd, stage)
    requires forall p :: p in stage.missing ==> !Readable(usd, p, StampOf(s.files, p))
    ensures var (t, o) := Finish(usd, s, r, stage, warned);
            && Inv(usd, t) && t.files == s.files
            && (if MayReadAll(r, stage) then
                  o.Served? && o.handle.stage == stage && o.warned == warned && o.source.Opened?
                else o.Refused?)
  {
    hide Inv, MakeRoom, EstimateStageMemory, Readable, WellComposed, Handles, Purged, MissingStamps;
    var h := Handle(s.nextId, stage);
    var s1 := s.(nextId := s.nextId + 1);
    NextIdKeeps(usd, s);
    if !MayReadAll(r, stage) {
      CollectKeeps(usd, s);
    } else if !r.cacheEnabled || warned {
      HoldKeeps(usd, s1, r, h);
      CollectKeeps(usd, Hold(s1, r, h));
    } else {
      var estimate := EstimateStageMemory(usd, stage);
      var (s2, fits) := MakeRoom(s1, r.db, r.memory, estimate);
      MakeRoomKeeps(usd, s1, r.db, r.memory, estimate);
      if !fits {
        HoldKeeps(usd, s2, r, h);
        CollectKeeps(usd, Hold(s2, r, h));
      } else {
        CacheKeeps(usd, s2, r, h, estimate);
        var s3 := Cache(s2, r, h, estimate);
        HoldKeeps(usd, s3, r, h);
        CollectKeeps(usd, Hold(s3, r, h));
      }
    }
  }

  /** What a first or second attempt to open a stage leaves for the rest of the open. */
  ghost predicate Attempt(usd: Usd, s: State, key: StageKey, t: State, stage: Stage, changed: map<Path, Layer>) {
    && Inv(usd, t) && t.files == s.files && t.scans == s.scans
    && stage.key == key && InMemory(stage.layers, t.live) && WellComposed(usd, stage)
    && changed == OutOfDate(s.files, stage.layers)
    && (forall p :: p in stage.missing ==> !Readable(usd, p, StampOf(s.files, p)))
    && (changed == map[] <==> FreshOpen(usd, s.files, key) == Some(Content(stage)))
  }

  lemma OpenStageAttempt(usd: Usd, s: State, key: StageKey)
    requires Inv(usd, s)
    ensures match OpenStage(usd, s, key)
            case None => FreshOpen(usd, s.files, key).None?
            case Some((s1, stage)) =>
              Attempt(usd, s, key, RecordLayers(s1, stage.layers), stage, ChangedLayers(s1, stage.layers))
  {
    match OpenStage(usd, s, key)
    case None =>
      assert key.root !in Visible(usd, s.files, s.live);
      assert key.root !in OnDisk(usd, s.files);
    case Some((s1, stage)) =>
      OpenStageReads(usd, s, key);
      OpenStageRecords(usd, s, key);
      OpenStageKeeps(usd, s, key);
      UpToDateIsFresh(usd, s.files, stage);
  }

  /** A warning says that the stage differs from what a fresh process would compose, and nothing else does. An open only
      fails if it would in a fresh process, and is only refused if there is a file that may not be read; a stage uses no
      such file. */
  ghost predicate Honest(usd: Usd, files: map<Path, FileStamp>, r: Request, o: Outcome) {
    match o
    case Failed => FreshOpen(usd, files, r.key).None?
    case Refused => exists p :: !r.mayRead(p)
    case Served(h, source, warned) =>
      && h.stage.key == r.key && MayReadAll(r, h.stage)
      && (!warned <==> FreshOpen(usd, files, r.key) == Some(Content(h.stage)))
      && (warned <==> OutOfDate(files, h.stage.layers) != map[])
  }

  lemma OpenUncachedIsHonest(usd: Usd, s: State, r: Request)
    requires Inv(usd, s)
    ensures var (t, o) := OpenUncached(usd, s, r);
            && Inv(usd, t) && t.files == s.files && Honest(usd, s.files, r, o)
            && (o.Served? ==> o.source.Opened?)
  {
    hide Inv, Finish, LetGo, OpenStage, FreshOpen, WellComposed, RecordLayers, ChangedLayers;
    OpenStageAttempt(usd, s, r.key);
    match OpenStage(usd, s, r.key)
    case None =>
    case Some((s1, stage)) =>
      var changed := ChangedLayers(s1, stage.layers);
      var s2 := RecordLayers(s1, stage.layers);
      if changed == map[] {
        FinishKeeps(usd, s2, r, stage, false);
      } else {
        LetGoKeeps(usd, s2, r.db, changed);
        var s3 := LetGo(s2, r.db, changed);
        OpenStageAttempt(usd, s3, r.key);
        match OpenStage(usd, s3, r.key)
        case None =>
        case Some((s4, again)) =>
          var stillChanged := ChangedLayers(s4, again.layers);
          FinishKeeps(usd, RecordLayers(s4, again.layers), r, again, stillChanged != map[]);
      }
  }

  lemma ForgetKeeps(usd: Usd, s: State, r: Request)
    requires Inv(usd, s)
    ensures Inv(usd, Forget(s, r))
  {
  }

  lemma LookUpKeeps(usd: Usd, s: State, r: Request)
    requires Inv(usd, s)
    ensures var (t, lookup) := LookUp(s, r);
            && Inv(usd, t) && t.files == s.files && t.scans == s.scans && t.recent == s.recent
            && (lookup.Denied? ==> exists p :: !r.mayRead(p))
            && (lookup.Hit? ==> Inv(usd, Hold(t, r, lookup.handle)) &&
                                Honest(usd, s.files, r, Served(lookup.handle, FromCache, false)))
  {
    hide Inv, FindCachedStage, FreshOpen, OutOfDate, HandleInv, Hold;
    if r.cacheEnabled {
      FindCachedStageKeeps(usd, s, r);
      var (t, lookup) := FindCachedStage(s, r);
      if lookup.Hit? {
        CacheHitIsFresh(usd, s, r);
        HoldKeeps(usd, t, r, lookup.handle);
      }
    }
  }

  lemma OpenNewIsHonest(usd: Usd, s: State, r: Request)
    requires Inv(usd, s)
    ensures var (t, o) := OpenNew(usd, s, r);
            && Inv(usd, t) && t.files == s.files && Honest(usd, s.files, r, o)
            && (o.Served? ==> !o.source.FromQuery?)
  {
    hide Inv, LookUp, OpenUncached, FreshOpen, OutOfDate;
    LookUpKeeps(usd, s, r);
    OpenUncachedIsHonest(usd, LookUp(s, r).0, r);
  }

  /** The freshness of one open. A stage that the query already has open, under the same key, is shared as it is; any
      other is what a fresh process would compose from the current files, unless a warning is logged. */
  lemma OpenIsHonest(usd: Usd, s: State, r: Request)
    requires Inv(usd, s)
    ensures var (t, o) := Open(usd, s, r);
            && Inv(usd, t) && t.files == s.files
            && (o.Served? && o.source.FromQuery? <==> IsShared(s, r))
            && (if IsShared(s, r) then o.handle == s.recent[(r.query, r.key)] && o.handle.stage.key == r.key
                else Honest(usd, s.files, r, o))
  {
    hide OpenNew, FreshOpen, OutOfDate, HandleInv;
    if IsShared(s, r) {
      HoldKeeps(usd, s, r, s.recent[(r.query, r.key)]);
    } else {
      ForgetKeeps(usd, s, r);
      OpenNewIsHonest(usd, Forget(s, r), r);
    }
  }

  // ---------------------------------------------------------------- runs

  lemma StepKeeps(usd: Usd, s: State, op: Op)
    requires Inv(usd, s)
    ensures Inv(usd, Step(usd, s, op))
  {
    hide Inv, Open, Honest, Handles, Collect, Snapshot, OwnedBy, WithoutFirst;
    match op
    case Write(p, time, size) => FilesKeep(usd, s, s.files[p := At(time, size)]);
    case Delete(p) => FilesKeep(usd, s, s.files - {p});
    case OpenStageOp(r) => OpenIsHonest(usd, s, r);
    case EndScan(q, h) =>
      var t := s.(scans := s.scans - {(q, h)});
      FewerKeeps(usd, t, s);
      CollectKeeps(usd, t);
    case EndQuery(q) =>
      var t := s.(scans := (set held | held in s.scans && held.0 != q),
                  recent := (map k | k in s.recent && k.0 != q :: s.recent[k]));
      FewerKeeps(usd, t, s);
      CollectKeeps(usd, t);
    case Evict(slot) =>
      var t := s.(caches := s.caches - {slot});
      FewerKeeps(usd, t, s);
      CollectKeeps(usd, t);
    case Drop(db) =>
      var cs := OwnedBy(Snapshot(s.caches, s.registry), db);
      var t := s.(caches := WithoutFirst(s.caches, db, cs, |cs|));
      WithoutFirstIsFewer(s.caches, db, cs, |cs|);
      FewerKeeps(usd, t, s);
      CollectKeeps(usd, t);
  }

  lemma {:induction false} RunKeeps(usd: Usd, s: State, ops: seq<Op>)
    requires Inv(usd, s)
    ensures Inv(usd, Run(usd, s, ops))
    decreases |ops|
  {
    if ops == [] {
    } else {
      StepKeeps(usd, s, ops[0]);
      RunKeeps(usd, Step(usd, s, ops[0]), ops[1..]);
    }
  }

  lemma RunHolds(usd: Usd, ops: seq<Op>)
    ensures Inv(usd, Run(usd, INITIAL, ops))
  {
    assert Handles(INITIAL) == {};
    RunKeeps(usd, INITIAL, ops);
  }
}
