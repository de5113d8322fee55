/** What releasing cached stages achieves, and what it leaves alone. */
module UsdStageRelease {
  import opened Wrappers
  import opened UsdStageModel
  import opened UsdStageInvariant
  import opened UsdStageFreshness

  ghost predicate HeldByScan(s: State, p: Path) {
    exists held :: held in s.scans && p in held.1.stage.layers
  }

  /** A changed layer leaves memory exactly when no running scan holds a stage that uses it. */
  lemma LetGoFrees(usd: Usd, s: State, db: nat, changed: map<Path, Layer>, p: Path)
    requires Inv(usd, s) && InMemory(changed, s.live) && p in changed
    ensures p in LetGo(s, db, changed).live <==> HeldByScan(s, p)
  {
    var caches := Release(s.caches, db, changed);
    var t := s.(caches := caches);
    forall slot | slot in caches && caches[slot].handle.Some?
      ensures p !in caches[slot].handle.value.stage.layers
    {
      var h := s.caches[slot].handle.value;
      assert h in Handles(s);
      assert HandleInv(usd, s.live, s.nextId, h);
      assert !UsesChanged(s.caches[slot], changed);
    }
    forall held | held in s.scans ensures held.1 in Handles(t) {}
    forall h | h in Handles(t) && p in h.stage.layers ensures HeldByScan(s, p) {
      assert exists held :: held in t.scans && held.1 == h;
    }
  }

  /** The stage opened again reads each changed layer at its current version, if no running scan holds it. */
  lemma ReopenedIsCurrent(usd: Usd, s: State, db: nat, changed: map<Path, Layer>, key: StageKey, p: Path)
    requires Inv(usd, s) && InMemory(changed, s.live)
    requires p in changed && !HeldByScan(s, p)
    requires OpenStage(usd, LetGo(s, db, changed), key).Some?
    ensures var again := OpenStage(usd, LetGo(s, db, changed), key).value.1;
            p in again.layers ==> again.layers[p].stamp == StampOf(s.files, p)
  {
    LetGoFrees(usd, s, db, changed, p);
    OpenStageReads(usd, LetGo(s, db, changed), key);
  }

  // ---------------------------------------------------------------- what stays in memory

  /** A cached stage uses the layer that is in none of the dropped slots and uses no changed layer. */
  ghost predicate KeptByCache(s: State, dropped: set<Slot>, changed: map<Path, Layer>, p: Path) {
    exists slot :: slot in s.caches && slot !in dropped && s.caches[slot].handle.Some? &&
      !UsesChanged(s.caches[slot], changed) && p in s.caches[slot].handle.value.stage.layers
  }

  /** What USD keeps in memory once the stages in the dropped slots, and those that use a changed layer, are let go
      of. */
  ghost function Kept(s: State, dropped: set<Slot>, changed: map<Path, Layer>): map<Path, Layer> {
    map p | p in s.live && (HeldByScan(s, p) || KeptByCache(s, dropped, changed, p)) :: s.live[p]
  }

  /** A layer that something still uses is in memory. */
  lemma KeptIsInMemory(usd: Usd, s: State, dropped: set<Slot>, changed: map<Path, Layer>, p: Path)
    requires Inv(usd, s) && (HeldByScan(s, p) || KeptByCache(s, dropped, changed, p))
    ensures p in s.live
  {
    if HeldByScan(s, p) {
      var held :| held in s.scans && p in held.1.stage.layers;
      assert held.1 in Handles(s);
      assert HandleInv(usd, s.live, s.nextId, held.1);
    } else {
      var slot :| slot in s.caches && s.caches[slot].handle.Some? && p in s.caches[slot].handle.value.stage.layers;
      assert s.caches[slot].handle.value in Handles(s);
      assert HandleInv(usd, s.live, s.nextId, s.caches[slot].handle.value);
    }
  }

  /** What is in use once cached stages are let go of. */
  lemma InUseAfterRelease(s: State, db: nat, dropped: set<Slot>, changed: map<Path, Layer>, p: Path)
    ensures InUse(Handles(s.(caches := Release(s.caches, db, changed) - dropped)), p) <==>
            HeldByScan(s, p) || KeptByCache(s, dropped, changed, p)
  {
    hide UsesChanged;
    var caches := Release(s.caches, db, changed) - dropped;
    var t := s.(caches := caches);
    forall held | held in s.scans ensures held.1 in Handles(t) {}
    forall slot | slot in s.caches && slot !in dropped && s.caches[slot].handle.Some? &&
                  !UsesChanged(s.caches[slot], changed)
      ensures s.caches[slot].handle.value in Handles(t)
    {
      assert slot in caches && caches[slot] == s.caches[slot];
    }
    forall h | h in Handles(t) && p in h.stage.layers ensures HeldByScan(s, p) || KeptByCache(s, dropped, changed, p) {
      if slot :| slot in caches && caches[slot].handle == Some(h) {
        assert slot in s.caches && slot !in dropped && !UsesChanged(s.caches[slot], changed);
      } else {
        assert exists held :: held in s.scans && held.1 == h;
      }
    }
  }

  lemma ReleaseKeeps(s: State, db: nat, dropped: set<Slot>, changed: map<Path, Layer>)
    ensures Collect(s.(caches := Release(s.caches, db, changed) - dropped)).live == Kept(s, dropped, changed)
  {
    hide Release, Handles, InUse;
    forall p | p in s.live
      ensures InUse(Handles(s.(caches := Release(s.caches, db, changed) - dropped)), p) <==>
              HeldByScan(s, p) || KeptByCache(s, dropped, changed, p)
    {
      InUseAfterRelease(s, db, dropped, changed, p);
    }
  }

  // ---------------------------------------------------------------- one round

  /** The layers out of date that composing from the current files, and the layers in memory, reaches. */
  function StaleReached(usd: Usd, files: map<Path, FileStamp>, key: StageKey, live: map<Path, Layer>): map<Path,
                        Layer> {
    match Compose(usd, key, Visible(usd, files, live))
    case None => map[]
    case Some((versions, _)) => map p | p in versions && p in live && live[p].stamp != StampOf(files, p) :: live[p]
  }

  /** Everything that such a composition reads may be read. */
  predicate MayReadReached(usd: Usd, files: map<Path, FileStamp>, r: Request, live: map<Path, Layer>) {
    match Compose(usd, r.key, Visible(usd, files, live))
    case None => false
    case Some((versions, _)) => forall p :: p in versions ==> r.mayRead(p)
  }

  lemma OpenStageReaches(usd: Usd, s: State, r: Request)
    requires Inv(usd, s)
    ensures match OpenStage(usd, s, r.key)
            case None => StaleReached(usd, s.files, r.key, s.live) == map[]
            case Some((s1, stage)) =>
              && OutOfDate(s.files, stage.layers) == StaleReached(usd, s.files, r.key, s.live)
              && ChangedLayers(s1, stage.layers) == OutOfDate(s.files, stage.layers)
              && (MayReadAll(r, stage) <==> MayReadReached(usd, s.files, r, s.live))
  {
    hide LayersInv, CachesInv, HandlesInv, RegistryInv, RecentInv, RecordLayers, ChangedLayers, Visible, Compose;
    match OpenStage(usd, s, r.key)
    case None =>
    case Some((s1, stage)) =>
      OpenStageReads(usd, s, r.key);
      OpenStageRecords(usd, s, r.key);
      var versions := Compose(usd, r.key, Visible(usd, s.files, s.live)).value.0;
      assert stage.layers.Keys == versions.Keys;
      forall p | p in stage.layers
        ensures p in OutOfDate(s.files, stage.layers) <==> p in StaleReached(usd, s.files, r.key, s.live)
      {
        assert p in versions;
      }
  }

  lemma LayersOf(usd: Usd, s: State)
    requires Inv(usd, s)
    ensures LayersInv(usd, s)
  {
  }

  lemma LetGoKeepsThose(s: State, db: nat, changed: map<Path, Layer>)
    ensures LetGo(s, db, changed).live == Kept(s, {}, changed) && LetGo(s, db, changed).files == s.files
  {
    hide Release, Handles, Kept;
    assert Release(s.caches, db, changed) - {} == Release(s.caches, db, changed);
    ReleaseKeeps(s, db, {}, changed);
  }

  lemma SameKept(s: State, dropped: set<Slot>, changed: map<Path, Layer>, t: State, dropped': set<Slot>,
                 changed': map<Path, Layer>)
    requires forall p :: p in s.live ==> p in t.live && s.live[p] == t.live[p]
    requires forall p :: HeldByScan(s, p) <==> HeldByScan(t, p)
    requires forall p :: KeptByCache(s, dropped, changed, p) <==> KeptByCache(t, dropped', changed', p)
    requires forall p :: HeldByScan(s, p) || KeptByCache(s, dropped, changed, p) ==> p in s.live
    ensures Kept(s, dropped, changed) == Kept(t, dropped', changed')
  {
    hide HeldByScan, KeptByCache;
  }

  /** More layers in memory, that nothing uses. */
  lemma KeptOfMore(usd: Usd, s: State, more: State, changed: map<Path, Layer>)
    requires Inv(usd, s) && InMemory(s.live, more.live) && more.caches == s.caches && more.scans == s.scans
    ensures Kept(more, {}, changed) == Kept(s, {}, changed)
  {
    hide Inv, UsesChanged;
    forall p
      ensures HeldByScan(s, p) <==> HeldByScan(more, p)
      ensures KeptByCache(s, {}, changed, p) <==> KeptByCache(more, {}, changed, p)
      ensures HeldByScan(s, p) || KeptByCache(s, {}, changed, p) ==> p in s.live
    {
      if HeldByScan(s, p) || KeptByCache(s, {}, changed, p) { KeptIsInMemory(usd, s, {}, changed, p); }
    }
    hide HeldByScan, KeptByCache, Kept;
    SameKept(s, {}, changed, more, {}, changed);
  }

  /** The layers that the first attempt has just read are out of use once its stage is let go of. */
  lemma LetGoKeepsJust(usd: Usd, s: State, db: nat, key: StageKey)
    requires Inv(usd, s) && OpenStage(usd, s, key).Some?
    ensures var (s1, stage) := OpenStage(usd, s, key).value;
            var changed := OutOfDate(s.files, stage.layers);
            var s3 := LetGo(RecordLayers(s1, stage.layers), db, changed);
            s3.live == Kept(s, {}, changed) && s3.files == s.files
  {
    hide Inv, Compose, RecordLayers, ChangedLayers, OutOfDate, Kept, WellComposed, OpenStage;
    var (s1, stage) := OpenStage(usd, s, key).value;
    assert LayersInv(usd, s) by { LayersOf(usd, s); }
    OpenStageRecords(usd, s, key);
    var s2 := RecordLayers(s1, stage.layers);
    LetGoKeepsThose(s2, db, OutOfDate(s.files, stage.layers));
    KeptOfMore(usd, s, s2, OutOfDate(s.files, stage.layers));
  }

  lemma SameScans(s: State, t: State, p: Path)
    requires s.scans == t.scans
    ensures HeldByScan(s, p) <==> HeldByScan(t, p)
  {
  }

  lemma FinishServes(usd: Usd, s: State, r: Request, stage: Stage, warned: bool)
    ensures var o := Finish(usd, s, r, stage, warned).1;
            if MayReadAll(r, stage) then o.Served? && o.handle.stage == stage && o.warned == warned && o.source.Opened?
            else o.Refused?
  {
  }

  /** Without a usable cached stage: an open warns if both its attempts reach layers that are out of date. */
  lemma UncachedWarnsWhen(usd: Usd, s: State, r: Request)
    requires Inv(usd, s)
    ensures var o := OpenUncached(usd, s, r).1;
            var first := StaleReached(usd, s.files, r.key, s.live);
            var kept := Kept(s, {}, first);
            var second := StaleReached(usd, s.files, r.key, kept);
            && (o.Served? && o.warned <==> first != map[] && second != map[] && MayReadReached(usd, s.files, r, kept))
            && (o.Served? && o.warned ==> OutOfDate(s.files, o.handle.stage.layers) == second)
  {
    hide Inv, Finish, StaleReached, MayReadReached, OpenStage, LetGo, RecordLayers, ChangedLayers, OutOfDate, Kept,
         MayReadAll, FreshOpen, WellComposed;
    OpenStageReaches(usd, s, r);
    OpenStageAttempt(usd, s, r.key);
    match OpenStage(usd, s, r.key)
    case None =>
    case Some((s1, stage)) =>
      var changed := ChangedLayers(s1, stage.layers);
      var s2 := RecordLayers(s1, stage.layers);
      FinishServes(usd, s2, r, stage, false);
      if changed != map[] {
        LetGoKeeps(usd, s2, r.db, changed);
        var s3 := LetGo(s2, r.db, changed);
        LetGoKeepsJust(usd, s, r.db, r.key);
        OpenStageReaches(usd, s3, r);
        match OpenStage(usd, s3, r.key)
        case None =>
        case Some((s4, again)) =>
          FinishServes(usd, RecordLayers(s4, again.layers), r, again, ChangedLayers(s4, again.layers) != map[]);
      }
  }

  // ---------------------------------------------------------------- the whole open

  /** The cached stage is up to date, so the open serves it (or is refused), and composes nothing. */
  predicate IsUsable(s: State, r: Request) {
    var slot := Slot(r.db, r.key);
    r.cacheEnabled && slot in s.caches && s.caches[slot].handle.Some? &&
    OutOfDate(s.files, s.caches[slot].handle.value.stage.layers) == map[] && !MissingAssetsChanged(s, s.caches[slot])
  }

  /** The slot that the lookup empties. */
  function LookedUp(r: Request): set<Slot> {
    if r.cacheEnabled then {Slot(r.db, r.key)} else {}
  }

  /** The layers for which the lookup lets go of cached stages: those of the stage under the same key that changed. */
  function LookupChanged(s: State, r: Request): map<Path, Layer> {
    var slot := Slot(r.db, r.key);
    if r.cacheEnabled && slot in s.caches && s.caches[slot].handle.Some?
    then OutOfDate(s.files, s.caches[slot].handle.value.stage.layers) else map[]
  }

  /** What is in memory for the first attempt. */
  ghost function FirstLive(s: State, r: Request): map<Path, Layer> {
    var slot := Slot(r.db, r.key);
    if r.cacheEnabled && slot in s.caches && s.caches[slot].handle.Some?
    then Kept(s, {slot}, LookupChanged(s, r)) else s.live
  }

  /** The layers out of date that the first attempt reaches. */
  ghost function FirstRound(usd: Usd, s: State, r: Request): map<Path, Layer> {
    StaleReached(usd, s.files, r.key, FirstLive(s, r))
  }

  /** The layers for which cached stages were let go of before the second attempt. */
  ghost function LetGoFor(usd: Usd, s: State, r: Request): map<Path, Layer> {
    LookupChanged(s, r) + FirstRound(usd, s, r)
  }

  /** What is in memory for the second attempt. */
  ghost function SecondLive(usd: Usd, s: State, r: Request): map<Path, Layer> {
    Kept(s, LookedUp(r), LetGoFor(usd, s, r))
  }

  /** The layers out of date that the second attempt reaches. */
  ghost function SecondRound(usd: Usd, s: State, r: Request): map<Path, Layer> {
    StaleReached(usd, s.files, r.key, SecondLive(usd, s, r))
  }

  lemma UsesEither(e: Entry, live: map<Path, Layer>, a: map<Path, Layer>, b: map<Path, Layer>)
    requires InMemory(a, live) && InMemory(b, live)
    ensures UsesChanged(e, a + b) <==> UsesChanged(e, a) || UsesChanged(e, b)
  {
    if e.handle.Some? {
      var layers := e.handle.value.stage.layers;
      forall p | p in layers && p in a && a[p] == layers[p] ensures p in a + b && (a + b)[p] == layers[p] {}
      forall p | p in layers && p in b && b[p] == layers[p] ensures p in a + b && (a + b)[p] == layers[p] {}
    }
  }

  lemma ReleaseNothing(caches: map<Slot, Entry>, db: nat)
    ensures Release(caches, db, map[]) == caches
  {
  }

  lemma CollectFrame(s: State)
    ensures Collect(s) == s.(live := Collect(s).live)
  {
  }

  /** A lookup that misses, in terms of what stays in memory. */
  lemma MissLeaves(usd: Usd, s: State, r: Request)
    requires Inv(usd, s)
    ensures LookUp(s, r).1.Miss? <==> !IsUsable(s, r)
    ensures var t := LookUp(s, r).0;
            LookUp(s, r).1.Miss? ==>
              && t.live == FirstLive(s, r) && t.files == s.files && t.scans == s.scans
              && (t.caches == if LookupChanged(s, r) != map[]
                              then Release(s.caches, r.db, LookupChanged(s, r)) - LookedUp(r)
                              else s.caches - LookedUp(r))
  {
    hide Inv, LayersInv, RecordLayers, ChangedLayers, OutOfDate, Release, Kept, MayReadAll, Collect;
    var slot := Slot(r.db, r.key);
    assert s.caches - {} == s.caches;
    if r.cacheEnabled && slot in s.caches && s.caches[slot].handle.Some? {
      var layers := s.caches[slot].handle.value.stage.layers;
      CachedStageInMemory(usd, s, slot);
      RecordSeen(usd, s, layers);
      ReleaseKeeps(s, r.db, {slot}, OutOfDate(s.files, layers));
      if OutOfDate(s.files, layers) == map[] { ReleaseNothing(s.caches, r.db); }
      CollectFrame(s.(caches := (if LookupChanged(s, r) != map[]
                                 then Release(s.caches, r.db, LookupChanged(s, r)) else s.caches) - {slot}));
    }
  }

  lemma UsesNothing(e: Entry)
    ensures !UsesChanged(e, map[])
  {
  }

  lemma LookupChangedInMemory(usd: Usd, s: State, r: Request)
    requires Inv(usd, s)
    ensures InMemory(LookupChanged(s, r), s.live)
  {
    hide LayersInv, HandlesInv, CachesInv, RegistryInv, RecentInv;
    var slot := Slot(r.db, r.key);
    if r.cacheEnabled && slot in s.caches && s.caches[slot].handle.Some? {
      CachedStageInMemory(usd, s, slot);
    }
  }

  /** After the lookup, a cached stage keeps a layer in memory in a second release if it does so for both together. */
  lemma KeptAfterMiss(usd: Usd, s: State, r: Request, changed: map<Path, Layer>, p: Path)
    requires Inv(usd, s) && LookUp(s, r).1.Miss? && InMemory(changed, s.live)
    ensures KeptByCache(LookUp(s, r).0, {}, changed, p) <==>
            KeptByCache(s, LookedUp(r), LookupChanged(s, r) + changed, p)
  {
    MissLeaves(usd, s, r);
    LookupChangedInMemory(usd, s, r);
    hide Inv, LookUp, OutOfDate, LookupChanged, UsesChanged, InMemory;
    var t := LookUp(s, r).0;
    var first := LookupChanged(s, r);
    forall slot | slot in s.caches && slot !in LookedUp(r)
      ensures UsesChanged(s.caches[slot], first + changed) <==>
              UsesChanged(s.caches[slot], first) || UsesChanged(s.caches[slot], changed)
    {
      UsesEither(s.caches[slot], s.live, first, changed);
    }
    if first == map[] {
      forall slot | slot in s.caches ensures !UsesChanged(s.caches[slot], first) { UsesNothing(s.caches[slot]); }
    }
    if KeptByCache(t, {}, changed, p) {
      var slot :| slot in t.caches && t.caches[slot].handle.Some? && !UsesChanged(t.caches[slot], changed) &&
        p in t.caches[slot].handle.value.stage.layers;
      assert slot in s.caches && slot !in LookedUp(r) && t.caches[slot] == s.caches[slot];
    }
    if KeptByCache(s, LookedUp(r), first + changed, p) {
      var slot :| slot in s.caches && slot !in LookedUp(r) && s.caches[slot].handle.Some? &&
        !UsesChanged(s.caches[slot], first + changed) && p in s.caches[slot].handle.value.stage.layers;
      assert slot in t.caches && t.caches[slot] == s.caches[slot];
    }
  }

  lemma FirstLiveInMemory(s: State, r: Request)
    ensures forall p :: p in FirstLive(s, r) ==> p in s.live && FirstLive(s, r)[p] == s.live[p]
  {
  }

  lemma FirstRoundInMemory(usd: Usd, s: State, r: Request)
    requires Inv(usd, s)
    ensures InMemory(FirstRound(usd, s, r), s.live)
  {
    hide Inv, FirstLive;
    FirstLiveInMemory(s, r);
  }

  lemma SecondLiveAfterMiss(usd: Usd, s: State, r: Request)
    requires Inv(usd, s) && LookUp(s, r).1.Miss? && Inv(usd, LookUp(s, r).0)
    ensures Kept(LookUp(s, r).0, {}, FirstRound(usd, s, r)) == SecondLive(usd, s, r)
  {
    MissLeaves(usd, s, r);
    FirstRoundInMemory(usd, s, r);
    FirstLiveInMemory(s, r);
    hide Inv, LookUp, FirstRound, FirstLive, LookupChanged, KeptByCache, HeldByScan, InMemory, Kept;
    var t := LookUp(s, r).0;
    var first := FirstRound(usd, s, r);
    forall p
      ensures HeldByScan(t, p) <==> HeldByScan(s, p)
      ensures KeptByCache(t, {}, first, p) <==> KeptByCache(s, LookedUp(r), LetGoFor(usd, s, r), p)
      ensures HeldByScan(t, p) || KeptByCache(t, {}, first, p) ==> p in t.live
    {
      SameScans(t, s, p);
      KeptAfterMiss(usd, s, r, first, p);
      if HeldByScan(t, p) || KeptByCache(t, {}, first, p) { KeptIsInMemory(usd, t, {}, first, p); }
    }
    SameKept(t, {}, first, s, LookedUp(r), LetGoFor(usd, s, r));
  }

  lemma OpenUnfolds(usd: Usd, s: State, r: Request)
    ensures var o := Open(usd, s, r).1;
            if IsShared(s, r) then !(o.Served? && o.warned) else o == OpenNew(usd, Forget(s, r), r).1
  {
  }

  lemma ForgetSame(usd: Usd, s: State, r: Request)
    ensures Forget(s, r).files == s.files
    ensures IsUsable(Forget(s, r), r) <==> IsUsable(s, r)
    ensures FirstRound(usd, Forget(s, r), r) == FirstRound(usd, s, r)
    ensures SecondLive(usd, Forget(s, r), r) == SecondLive(usd, s, r)
    ensures SecondRound(usd, Forget(s, r), r) == SecondRound(usd, s, r)
  {
    hide StaleReached, UsesChanged, OutOfDate;
    var t := Forget(s, r);
    forall p, dropped, changed
      ensures HeldByScan(t, p) <==> HeldByScan(s, p)
      ensures KeptByCache(t, dropped, changed, p) <==> KeptByCache(s, dropped, changed, p)
    {
    }
    hide HeldByScan, KeptByCache;
    assert FirstLive(t, r) == FirstLive(s, r);
    assert SecondLive(usd, t, r) == SecondLive(usd, s, r);
  }

  lemma NewWarnsWhen(usd: Usd, s: State, r: Request)
    requires Inv(usd, s)
    ensures var o := OpenNew(usd, s, r).1;
            && (o.Served? && o.warned <==>
                  && r.mayRead(r.key.root) && !IsUsable(s, r)
                  && FirstRound(usd, s, r) != map[] && SecondRound(usd, s, r) != map[]
                  && MayReadReached(usd, s.files, r, SecondLive(usd, s, r)))
            && (o.Served? && o.warned ==> OutOfDate(s.files, o.handle.stage.layers) == SecondRound(usd, s, r))
  {
    hide Inv, LookUp, OpenUncached, IsUsable, StaleReached, Kept, FirstLive, MayReadReached, OutOfDate, LetGoFor,
         SecondLive,
         HandleInv, Hold, Honest;
    LookUpKeeps(usd, s, r);
    MissLeaves(usd, s, r);
    if LookUp(s, r).1.Miss? {
      UncachedWarnsWhen(usd, LookUp(s, r).0, r);
      SecondLiveAfterMiss(usd, s, r);
    }
  }

  /** When an open warns, in terms of the state before it. It must compose the stage: the query does not share it, and
      there is no usable cached stage. The first attempt must reach layers out of date, among those that stay in
      memory when the lookup lets go of the stage under the same key and what uses its changed layers. And, once the
      stages that use those are let go of, too, the second attempt must still reach one; those are the layers out of
      date of the stage. */
  lemma WarnsExactlyWhen(usd: Usd, s: State, r: Request)
    requires Inv(usd, s)
    ensures var o := Open(usd, s, r).1;
            && (o.Served? && o.warned <==>
                  && !IsShared(s, r) && r.mayRead(r.key.root) && !IsUsable(s, r)
                  && FirstRound(usd, s, r) != map[] && SecondRound(usd, s, r) != map[]
                  && MayReadReached(usd, s.files, r, SecondLive(usd, s, r)))
            && (o.Served? && o.warned ==> OutOfDate(s.files, o.handle.stage.layers) == SecondRound(usd, s, r))
  {
    hide *;
    OpenUnfolds(usd, s, r);
    if !IsShared(s, r) {
      ForgetKeeps(usd, s, r);
      ForgetSame(usd, s, r);
      NewWarnsWhen(usd, Forget(s, r), r);
    }
  }

  /** The warning is explained by running queries, which hold all layers out of date of the stage, unless the second
      attempt reached one that no scan holds, but a cached stage that uses none of the layers for which stages were
      let go of. */
  lemma ExplainedByQueriesWhen(usd: Usd, s: State, r: Request)
    requires Inv(usd, s)
    requires Open(usd, s, r).1.Served? && Open(usd, s, r).1.warned
    ensures (forall p :: p in OutOfDate(s.files, Open(usd, s, r).1.handle.stage.layers) ==> HeldByScan(s, p)) <==>
            !exists p :: p in SecondRound(usd, s, r) && !HeldByScan(s, p) &&
              KeptByCache(s, LookedUp(r), LetGoFor(usd, s, r), p)
  {
    WarnsExactlyWhen(usd, s, r);
    hide Inv, Open, HeldByScan, KeptByCache, OutOfDate, LetGoFor, FirstRound;
    forall p | p in SecondRound(usd, s, r)
      ensures HeldByScan(s, p) || KeptByCache(s, LookedUp(r), LetGoFor(usd, s, r), p)
    {
      assert p in SecondLive(usd, s, r);
    }
  }
}
