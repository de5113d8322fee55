/** What the order of last use, and the stages that the scans of a query share, say about the run. */
module UsdStageUse {
  import opened UsdStageModel
  import opened UsdStageInvariant
  import opened UsdStageFreshness
  import opened UsdStageBudget

  // ---------------------------------------------------------------- last use

  /** The entry in `slot` is the last that MakeRoom would drop. */
  ghost predicate MostRecent(s: State, slot: Slot) {
    slot in s.caches &&
    forall x :: x in s.caches && x != slot ==> s.caches[x].lastUsed < s.caches[slot].lastUsed
  }

  lemma RecordKeepsCaches(s: State, layers: map<Path, Layer>)
    ensures RecordLayers(s, layers).caches == s.caches
  {
  }

  lemma HitIsMostRecent(usd: Usd, s: State, r: Request)
    requires Inv(usd, s) && FindCachedStage(s, r).1.Hit?
    ensures MostRecent(FindCachedStage(s, r).0, Slot(r.db, r.key))
  {
    hide LayersInv, HandlesInv, RegistryInv, RecentInv, ChangedLayers, RecordLayers, MissingAssetsChanged, Readable;
    RecordKeepsCaches(s, s.caches[Slot(r.db, r.key)].handle.value.stage.layers);
    forall x | x in s.caches ensures s.caches[x].lastUsed <= s.clock { assert EntryInv(usd, s, x, s.caches[x]); }
  }

  lemma EntryIsMostRecent(usd: Usd, s: State, r: Request, h: Handle, estimate: nat)
    requires Inv(usd, s)
    ensures MostRecent(Collect(Hold(Cache(s, r, h, estimate), r, h)), Slot(r.db, r.key))
  {
    hide LayersInv, HandlesInv, RegistryInv, RecentInv, Handles, Purged, MissingStamps, Readable;
    forall x | x in s.caches ensures s.caches[x].lastUsed <= s.clock { assert EntryInv(usd, s, x, s.caches[x]); }
  }

  lemma CachedIsMostRecent(usd: Usd, s: State, r: Request, stage: Stage, warned: bool)
    requires Inv(usd, s)
    ensures var (t, o) := Finish(usd, s, r, stage, warned);
            o.Served? && o.source == Opened(true) ==> MostRecent(t, Slot(r.db, r.key))
  {
    hide Inv, Finish, MakeRoom, EstimateStageMemory, Cache, Hold, Collect;
    var s1 := s.(nextId := s.nextId + 1);
    var estimate := EstimateStageMemory(usd, stage);
    NextIdKeeps(usd, s);
    MakeRoomKeeps(usd, s1, r.db, r.memory, estimate);
    FinishUnfolds(usd, s, r, stage, warned);
    EntryIsMostRecent(usd, MakeRoom(s1, r.db, r.memory, estimate).0, r, Handle(s.nextId, stage), estimate);
  }

  lemma OpenUncachedIsMostRecent(usd: Usd, s: State, r: Request)
    requires Inv(usd, s)
    ensures var (t, o) := OpenUncached(usd, s, r);
            o.Served? && o.source == Opened(true) ==> MostRecent(t, Slot(r.db, r.key))
  {
    hide Inv, MostRecent, Finish, FreshOpen, OutOfDate, WellComposed;
    OpenStageAttempt(usd, s, r.key);
    match OpenStage(usd, s, r.key)
    case None =>
    case Some((s1, stage)) =>
      var changed := ChangedLayers(s1, stage.layers);
      var s2 := RecordLayers(s1, stage.layers);
      CachedIsMostRecent(usd, s2, r, stage, false);
      if changed != map[] {
        LetGoKeeps(usd, s2, r.db, changed);
        var s3 := LetGo(s2, r.db, changed);
        OpenStageAttempt(usd, s3, r.key);
        match OpenStage(usd, s3, r.key)
        case None =>
        case Some((s4, again)) =>
          CachedIsMostRecent(usd, RecordLayers(s4, again.layers), r, again, ChangedLayers(s4, again.layers) != map[]);
      }
  }

  /** A stage that an open takes from the cache, or puts there, is the most recently used of all. So the order in which
      MakeRoom drops stages is the order in which they were last opened. */
  lemma OpenIsMostRecent(usd: Usd, s: State, r: Request)
    requires Inv(usd, s)
    ensures var (t, o) := Open(usd, s, r);
            o.Served? && (o.source.FromCache? || o.source == Opened(true)) ==> MostRecent(t, Slot(r.db, r.key))
  {
    hide Inv, FindCachedStage, OpenUncached, Handles, Honest;
    var s0 := Forget(s, r);
    ForgetKeeps(usd, s, r);
    LookUpKeeps(usd, s0, r);
    var (s1, lookup) := LookUp(s0, r);
    if lookup.Hit? {
      HitIsMostRecent(usd, s0, r);
    } else if lookup.Miss? {
      OpenUncachedIsHonest(usd, s1, r);
      OpenUncachedIsMostRecent(usd, s1, r);
    }
  }

  // ---------------------------------------------------------------- sharing within a query

  lemma FinishRecent(usd: Usd, s: State, r: Request, stage: Stage, warned: bool)
    ensures var (t, o) := Finish(usd, s, r, stage, warned);
            && t.recent == (if o.Served? then s.recent[(r.query, r.key) := o.handle] else s.recent)
            && t.scans == if o.Served? then s.scans + {(r.query, o.handle)} else s.scans
  {
    hide DropOrder, DropCount, WithoutFirst, FitsAfter, Purged, MissingStamps, Handles, EstimateStageMemory;
  }

  lemma OpenUncachedRecent(usd: Usd, s: State, r: Request)
    ensures var (t, o) := OpenUncached(usd, s, r);
            && t.recent == (if o.Served? then s.recent[(r.query, r.key) := o.handle] else s.recent)
            && t.scans == if o.Served? then s.scans + {(r.query, o.handle)} else s.scans
  {
    hide ChangedLayers, MakeRoom, Compose, Handles, Release, Finish;
    match OpenStage(usd, s, r.key)
    case None =>
    case Some((s1, stage)) =>
      FinishRecent(usd, RecordLayers(s1, stage.layers), r, stage, false);
      var changed := ChangedLayers(s1, stage.layers);
      var s3 := LetGo(RecordLayers(s1, stage.layers), r.db, changed);
      match OpenStage(usd, s3, r.key)
      case None =>
      case Some((s4, again)) =>
        FinishRecent(usd, RecordLayers(s4, again.layers), r, again, ChangedLayers(s4, again.layers) != map[]);
  }

  /** What an open changes of the weak pointers of the queries, and of what their scans hold. */
  lemma OpenRecent(usd: Usd, s: State, r: Request)
    requires Inv(usd, s)
    ensures var (t, o) := Open(usd, s, r);
            var k := (r.query, r.key);
            && t.recent == (if o.Served? then s.recent[k := o.handle] else s.recent - {k})
            && t.scans == if o.Served? then s.scans + {(r.query, o.handle)} else s.scans
  {
    hide Inv, LookUp, OpenUncached, Handles, Honest;
    var k := (r.query, r.key);
    var s0 := Forget(s, r);
    ForgetKeeps(usd, s, r);
    LookUpKeeps(usd, s0, r);
    OpenUncachedRecent(usd, LookUp(s0, r).0, r);
    var o := Open(usd, s, r).1;
    if o.Served? { assert (s.recent - {k})[k := o.handle] == s.recent[k := o.handle]; }
  }

  /** Where the weak pointers after a step are from. */
  lemma StepRecent(usd: Usd, s: State, op: Op, k: (nat, StageKey))
    requires Inv(usd, s) && k in Step(usd, s, op).recent
    ensures var h := Step(usd, s, op).recent[k];
            if op.OpenStageOp? && (op.request.query, op.request.key) == k then
              var o := Open(usd, s, op.request).1; o.Served? && o.handle == h
            else k in s.recent && s.recent[k] == h && op != EndQuery(k.0)
  {
    hide Inv, Open, Handles, Snapshot, OwnedBy, WithoutFirst;
    if op.OpenStageOp? { OpenRecent(usd, s, op.request); }
  }

  /** The step is an open by the query which did not share the stage, and was honest about it. */
  ghost predicate OpenedAt(usd: Usd, ops: seq<Op>, i: nat, k: (nat, StageKey), h: Handle)
    requires i < |ops|
  {
    && ops[i].OpenStageOp? && (ops[i].request.query, ops[i].request.key) == k
    && var s := Run(usd, INITIAL, ops[..i]);
       var o := Open(usd, s, ops[i].request).1;
       o.Served? && o.handle == h && !o.source.FromQuery? && Honest(usd, s.files, ops[i].request, o)
  }

  /** In this run, the query itself opened the stage, and has not ended since. */
  ghost predicate OpenedByQuery(usd: Usd, ops: seq<Op>, k: (nat, StageKey), h: Handle) {
    exists i :: 0 <= i < |ops| && OpenedAt(usd, ops, i, k, h) && forall j :: i < j < |ops| ==> ops[j] != EndQuery(k.0)
  }

  lemma {:induction false} RunSnoc(usd: Usd, s: State, ops: seq<Op>)
    requires ops != []
    ensures Run(usd, s, ops) == Step(usd, Run(usd, s, ops[..|ops| - 1]), ops[|ops| - 1])
    decreases |ops|
  {
    hide Step;
    if |ops| > 1 {
      RunSnoc(usd, Step(usd, s, ops[0]), ops[1..]);
      assert ops[..|ops| - 1][1..] == ops[1..][..|ops| - 2];
    } else {
      assert ops[..0] == [] && ops[1..] == [];
    }
  }

  lemma SharedIsRecent(s: State, r: Request)
    requires IsShared(s, r)
    ensures (r.query, r.key) in s.recent
  {
  }

  lemma OpenedEarlier(usd: Usd, before: seq<Op>, op: Op, k: (nat, StageKey), h: Handle)
    requires OpenedByQuery(usd, before, k, h) && op != EndQuery(k.0)
    ensures OpenedByQuery(usd, before + [op], k, h)
  {
    hide Run, Open, Honest;
    var ops := before + [op];
    var i :| 0 <= i < |before| && OpenedAt(usd, before, i, k, h) &&
      forall j :: i < j < |before| ==> before[j] != EndQuery(k.0);
    assert before[..i] == ops[..i];
    assert OpenedAt(usd, ops, i, k, h);
    forall j | i < j < |ops| ensures ops[j] != EndQuery(k.0) { assert j < |before| ==> ops[j] == before[j]; }
  }

  lemma RunNothing(usd: Usd, ops: seq<Op>)
    ensures ops == [] ==> Run(usd, INITIAL, ops) == INITIAL
  {
  }

  /** Stages are shared within a query only: a weak pointer is to a stage that its query opened, and that it has not
      ended since. */
  lemma {:induction false} SharedWithinQuery(usd: Usd, ops: seq<Op>, k: (nat, StageKey))
    requires k in Run(usd, INITIAL, ops).recent
    ensures OpenedByQuery(usd, ops, k, Run(usd, INITIAL, ops).recent[k])
    decreases |ops|
  {
    hide Run, Open, Step, Inv, IsShared, Honest;
    RunNothing(usd, ops);
    if ops == [] {
    } else {
      var n := |ops| - 1;
      var before, op := ops[..n], ops[n];
      var s := Run(usd, INITIAL, before);
      var h := Run(usd, INITIAL, ops).recent[k];
      RunSnoc(usd, INITIAL, ops);
      RunHolds(usd, before);
      StepRecent(usd, s, op, k);
      if op.OpenStageOp? { OpenIsHonest(usd, s, op.request); }
      if op.OpenStageOp? && (op.request.query, op.request.key) == k && !IsShared(s, op.request) {
        assert OpenedAt(usd, ops, n, k, h);
      } else {
        if op.OpenStageOp? && (op.request.query, op.request.key) == k { SharedIsRecent(s, op.request); }
        SharedWithinQuery(usd, before, k);
        OpenedEarlier(usd, before, op, k, h);
        assert before + [op] == ops;
      }
    }
  }

  /** In every run of file changes, opens, query ends, evictions and drops, over any number of databases and queries, an
      open is honest about the current files; or else it shares a stage that the same query opened, under the same key,
      honest about the files at that time, and the query has not ended since. */
  lemma EveryOpenIsHonest(usd: Usd, ops: seq<Op>, r: Request)
    ensures var s := Run(usd, INITIAL, ops);
            var o := Open(usd, s, r).1;
            if o.Served? && o.source.FromQuery? then OpenedByQuery(usd, ops, (r.query, r.key), o.handle)
            else Honest(usd, s.files, r, o)
  {
    hide Run, Open, OpenedByQuery, Honest, Inv, IsShared;
    RunHolds(usd, ops);
    var s := Run(usd, INITIAL, ops);
    OpenIsHonest(usd, s, r);
    if IsShared(s, r) {
      SharedIsRecent(s, r);
      SharedWithinQuery(usd, ops, (r.query, r.key));
    }
  }
}
