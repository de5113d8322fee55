/** Which files an open must be allowed to read: no other makes a difference to it. */
module UsdStageAccess {
  import opened UsdStageFreshness
  import opened UsdStageInvariant
  import opened UsdStageModel
  import opened UsdStageRelease
  import opened Wrappers

  // ---------------------------------------------------------------- the lookup

  /** The stage in the slot reads what it read when it was cached: its layers, and the assets that it missed. */
  ghost predicate UpToDate(s: State, slot: Slot) {
    && slot in s.caches && s.caches[slot].handle.Some?
    && (forall p :: p in s.caches[slot].handle.value.stage.layers ==>
          s.caches[slot].handle.value.stage.layers[p].stamp == StampOf(s.files, p))
    && (forall p :: p in s.caches[slot].missing ==> s.caches[slot].missing[p] == StampOf(s.files, p))
  }

  lemma UsableIsUpToDate(s: State, r: Request)
    ensures IsUsable(s, r) <==> r.cacheEnabled && UpToDate(s, Slot(r.db, r.key))
  {
    var slot := Slot(r.db, r.key);
    if slot in s.caches && s.caches[slot].handle.Some? {
      var layers := s.caches[slot].handle.value.stage.layers;
      assert forall p :: p in OutOfDate(s.files, layers) <==> p in layers && layers[p].stamp != StampOf(s.files, p);
      assert OutOfDate(s.files, layers) == map[] <==> forall p :: p in layers ==> p !in OutOfDate(s.files, layers);
    }
  }

  /** The lookup serves the stage in its slot exactly if it is up to date and its own layers may be read. */
  ghost predicate LookedUpRightly(s: State, r: Request, lookup: Lookup) {
    var slot := Slot(r.db, r.key);
    && (lookup.Miss? <==> !UpToDate(s, slot))
    && (lookup.Hit? <==>
          UpToDate(s, slot) && forall p :: p in s.caches[slot].handle.value.stage.layers ==> r.mayRead(p))
    && (lookup.Hit? ==> lookup.handle == s.caches[slot].handle.value)
  }

  lemma LookupIsRight(usd: Usd, s: State, r: Request)
    requires Inv(usd, s)
    ensures LookedUpRightly(s, r, FindCachedStage(s, r).1)
  {
    hide Inv, LayersInv, RecordLayers, ChangedLayers, OutOfDate, Release, Collect;
    var slot := Slot(r.db, r.key);
    var enabled := r.(cacheEnabled := true);
    UsableIsUpToDate(s, enabled);
    if slot in s.caches && s.caches[slot].handle.Some? {
      CachedStageInMemory(usd, s, slot);
      RecordSeen(usd, s, s.caches[slot].handle.value.stage.layers);
    }
  }

  // ---------------------------------------------------------------- the whole open

  /** What is in memory for the last attempt to compose the stage. */
  ghost function LastLive(usd: Usd, s: State, r: Request): map<Path, Layer> {
    if FirstRound(usd, s, r) == map[] then FirstLive(s, r) else SecondLive(usd, s, r)
  }

  /** The versions that composing from the current files, and the layers in memory, reads, and the assets it misses. */
  function Composed(usd: Usd, files: map<Path, FileStamp>, key: StageKey,
                    live: map<Path, Layer>): Option<(map<Path, FileStamp>, set<Path>)> {
    Compose(usd, key, Visible(usd, files, live))
  }

  function PathsRead(usd: Usd, files: map<Path, FileStamp>, key: StageKey, live: map<Path, Layer>): set<Path> {
    match Composed(usd, files, key, live)
    case None => {}
    case Some((versions, _)) => versions.Keys
  }

  /** The layers of the stage that an open comes to: the cached one, or the one that its last attempt composes. */
  ghost function Needed(usd: Usd, s: State, r: Request): set<Path> {
    var slot := Slot(r.db, r.key);
    if r.cacheEnabled && UpToDate(s, slot) then s.caches[slot].handle.value.stage.layers.Keys
    else PathsRead(usd, s.files, r.key, LastLive(usd, s, r))
  }

  /** The requests only differ in files that may be read which are not needed. */
  ghost predicate SameAccess(r: Request, other: Request, needed: set<Path>) {
    other == r.(mayRead := other.mayRead) && forall p :: p in needed ==> (other.mayRead(p) <==> r.mayRead(p))
  }

  lemma FinishSame(usd: Usd, s: State, r: Request, other: Request, stage: Stage, warned: bool)
    requires SameAccess(r, other, stage.layers.Keys)
    ensures Finish(usd, s, other, stage, warned) == Finish(usd, s, r, stage, warned)
  {
    hide MakeRoom, Collect, EstimateStageMemory, Purged;
    assert MayReadAll(other, stage) <==> MayReadAll(r, stage);
  }

  lemma LayersRead(usd: Usd, s: State, key: StageKey)
    ensures match OpenStage(usd, s, key)
            case None => Composed(usd, s.files, key, s.live) == None
            case Some((_, stage)) =>
              && Composed(usd, s.files, key, s.live) == Some(Content(stage))
              && stage.layers.Keys == PathsRead(usd, s.files, key, s.live)
  {
    match OpenStage(usd, s, key)
    case None =>
    case Some((_, stage)) =>
      ComposeReads(usd, key, Visible(usd, s.files, s.live));
      hide Compose;
      var versions := Composed(usd, s.files, key, s.live).value.0;
      assert stage.layers.Keys == versions.Keys;
      assert Versions(stage) == versions;
  }

  /** What is in memory for the last attempt, when there is no usable cached stage. */
  ghost function UncachedLive(usd: Usd, s: State, r: Request): map<Path, Layer> {
    var first := StaleReached(usd, s.files, r.key, s.live);
    if first == map[] then s.live else Kept(s, {}, first)
  }

  /** The outcome of an open that composes a stage: `composed` is what its last attempt gives. */
  ghost predicate ComesTo(r: Request, composed: Option<(map<Path, FileStamp>, set<Path>)>, o: Outcome) {
    match composed
    case None => o == Failed
    case Some((versions, missing)) =>
      if exists p :: p in versions && !r.mayRead(p) then o == Refused
      else o.Served? && o.source.Opened? && Content(o.handle.stage) == (versions, missing)
  }

  lemma FinishComesTo(usd: Usd, s: State, r: Request, stage: Stage, warned: bool)
    ensures ComesTo(r, Some(Content(stage)), Finish(usd, s, r, stage, warned).1)
  {
    hide Finish;
    FinishServes(usd, s, r, stage, warned);
    assert Content(stage).0.Keys == stage.layers.Keys;
    assert MayReadAll(r, stage) <==> forall p :: p in Content(stage).0 ==> r.mayRead(p);
  }

  lemma OpenUncachedNeeds(usd: Usd, s: State, r: Request, other: Request)
    requires Inv(usd, s) && SameAccess(r, other, PathsRead(usd, s.files, r.key, UncachedLive(usd, s, r)))
    ensures OpenUncached(usd, s, other) == OpenUncached(usd, s, r)
    ensures ComesTo(r, Composed(usd, s.files, r.key, UncachedLive(usd, s, r)), OpenUncached(usd, s, r).1)
  {
    hide Inv, Finish, StaleReached, PathsRead, OpenStage, LetGo, RecordLayers, ChangedLayers, OutOfDate, Kept,
         FreshOpen, WellComposed, Composed, Content;
    OpenStageReaches(usd, s, r);
    OpenStageAttempt(usd, s, r.key);
    LayersRead(usd, s, r.key);
    match OpenStage(usd, s, r.key)
    case None =>
    case Some((s1, stage)) =>
      var changed := ChangedLayers(s1, stage.layers);
      var s2 := RecordLayers(s1, stage.layers);
      if changed == map[] {
        FinishSame(usd, s2, r, other, stage, false);
        FinishComesTo(usd, s2, r, stage, false);
      } else {
        LetGoKeeps(usd, s2, r.db, changed);
        var s3 := LetGo(s2, r.db, changed);
        LetGoKeepsJust(usd, s, r.db, r.key);
        LayersRead(usd, s3, r.key);
        match OpenStage(usd, s3, r.key)
        case None =>
        case Some((s4, again)) =>
          var stillChanged := ChangedLayers(s4, again.layers) != map[];
          FinishSame(usd, RecordLayers(s4, again.layers), r, other, again, stillChanged);
          FinishComesTo(usd, RecordLayers(s4, again.layers), r, again, stillChanged);
      }
  }

  lemma LiveAfterMiss(usd: Usd, s: State, r: Request)
    requires Inv(usd, s) && LookUp(s, r).1.Miss? && Inv(usd, LookUp(s, r).0)
    ensures UncachedLive(usd, LookUp(s, r).0, r) == LastLive(usd, s, r)
    ensures !(r.cacheEnabled && UpToDate(s, Slot(r.db, r.key)))
  {
    hide Inv, LookUp, IsUsable, UpToDate, StaleReached, Kept, FirstLive, SecondLive;
    MissLeaves(usd, s, r);
    UsableIsUpToDate(s, r);
    SecondLiveAfterMiss(usd, s, r);
  }

  lemma LookUpSame(usd: Usd, s: State, r: Request, other: Request)
    requires Inv(usd, s) && SameAccess(r, other, Needed(usd, s, r))
    ensures LookUp(s, other) == LookUp(s, r)
    ensures LookUp(s, r).1.Denied? <==>
            r.cacheEnabled && UpToDate(s, Slot(r.db, r.key)) && exists p :: p in Needed(usd, s, r) && !r.mayRead(p)
  {
    hide Inv, UpToDate, PathsRead, LastLive, ChangedLayers, RecordLayers, MissingAssetsChanged, Release, Collect;
    LookupIsRight(usd, s, r);
    LookupIsRight(usd, s, other);
  }

  /** The outcome of an open that shares nothing, in terms of the state before it. */
  ghost predicate EndsAt(usd: Usd, s: State, r: Request, o: Outcome) {
    var slot := Slot(r.db, r.key);
    if !r.mayRead(r.key.root) then o == Refused
    else if !(r.cacheEnabled && UpToDate(s, slot)) then
      ComesTo(r, Composed(usd, s.files, r.key, LastLive(usd, s, r)), o)
    else if exists p :: p in s.caches[slot].handle.value.stage.layers && !r.mayRead(p) then o == Refused
    else o == Served(s.caches[slot].handle.value, FromCache, false)
  }

  lemma LookUpIs(usd: Usd, s: State, r: Request)
    requires Inv(usd, s)
    ensures var slot := Slot(r.db, r.key);
            if !(r.cacheEnabled && UpToDate(s, slot)) then LookUp(s, r).1.Miss?
            else if exists p :: p in s.caches[slot].handle.value.stage.layers && !r.mayRead(p)
            then LookUp(s, r).1 == Denied else LookUp(s, r).1 == Hit(s.caches[slot].handle.value)
  {
    hide Inv, UpToDate, FindCachedStage;
    LookupIsRight(usd, s, r);
  }

  lemma OpenNewNeeds(usd: Usd, s: State, r: Request, other: Request)
    requires Inv(usd, s) && SameAccess(r, other, Needed(usd, s, r) + {r.key.root})
    ensures OpenNew(usd, s, other) == OpenNew(usd, s, r)
    ensures EndsAt(usd, s, r, OpenNew(usd, s, r).1)
  {
    hide Inv, LookUp, OpenUncached, UpToDate, Honest, IsUsable, PathsRead, LastLive, UncachedLive, ComesTo, Composed;
    LookUpSame(usd, s, r, other);
    LookUpKeeps(usd, s, r);
    LookUpIs(usd, s, r);
    if LookUp(s, r).1.Miss? {
      LiveAfterMiss(usd, s, r);
      OpenUncachedNeeds(usd, LookUp(s, r).0, r, other);
    }
  }

  lemma ForgetFirstLive(s: State, r: Request)
    ensures FirstLive(Forget(s, r), r) == FirstLive(s, r)
  {
    hide UsesChanged, OutOfDate;
    var t := Forget(s, r);
    forall p, dropped, changed
      ensures HeldByScan(t, p) <==> HeldByScan(s, p)
      ensures KeptByCache(t, dropped, changed, p) <==> KeptByCache(s, dropped, changed, p)
    {
    }
    hide HeldByScan, KeptByCache;
  }

  lemma ForgetNeeds(usd: Usd, s: State, r: Request)
    ensures LastLive(usd, Forget(s, r), r) == LastLive(usd, s, r)
    ensures Needed(usd, Forget(s, r), r) == Needed(usd, s, r)
  {
    ForgetSame(usd, s, r);
    ForgetFirstLive(s, r);
    hide FirstRound, FirstLive, SecondLive, PathsRead, UsesChanged, StaleReached;
  }

  /** What an open comes to, from the state before it: the stage that its query shares; else an error, if the file may
      not be read; else the cached stage, if it is up to date and its layers may be read; else what composing from the
      current files gives, with the layers that stay in memory once all stages that use changed ones are let go of. */
  lemma OpenEndsAt(usd: Usd, s: State, r: Request)
    requires Inv(usd, s)
    ensures var o := Open(usd, s, r).1;
            if IsShared(s, r) then o == Served(s.recent[(r.query, r.key)], FromQuery, false) else EndsAt(usd, s, r, o)
  {
    hide Inv, OpenNew, Needed, LastLive, ComesTo, Composed;
    ForgetKeeps(usd, s, r);
    ForgetNeeds(usd, s, r);
    OpenNewNeeds(usd, Forget(s, r), r, r);
  }

  /** An open is refused if and only if the query does not share the stage, and the file itself or a layer of the
      stage that the open comes to may not be read. */
  lemma RefusedExactlyWhen(usd: Usd, s: State, r: Request)
    requires Inv(usd, s)
    ensures Open(usd, s, r).1.Refused? <==>
            !IsShared(s, r) && (!r.mayRead(r.key.root) || exists p :: p in Needed(usd, s, r) && !r.mayRead(p))
  {
    hide Inv, Open, IsShared, LastLive, Composed, UpToDate;
    OpenEndsAt(usd, s, r);
  }

  /** Which other files may be read makes no difference, neither to the outcome nor to the state. */
  lemma OtherFilesDoNotMatter(usd: Usd, s: State, r: Request, other: Request)
    requires Inv(usd, s) && SameAccess(r, other, Needed(usd, s, r) + {r.key.root})
    ensures Open(usd, s, other) == Open(usd, s, r)
  {
    hide Inv, OpenNew, Needed;
    ForgetKeeps(usd, s, r);
    ForgetNeeds(usd, s, r);
    OpenNewNeeds(usd, Forget(s, r), r, other);
    assert Forget(s, other) == Forget(s, r);
  }
}
