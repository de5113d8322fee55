/** A comment in the source explains the warning by a running query that still holds the changed layers. It is logged in
    other cases, too: here no query is running, and an open warns. `UsdStageRelease.WarnsExactlyWhen` says when it is
    logged, `UsdStageRelease.ExplainedByQueriesWhen` when running queries explain it. */
module UsdStageExample {
  import opened Wrappers
  import opened UsdStageModel
  import opened UsdStageInvariant
  import opened UsdStageFreshness
  import opened UsdStageBudget
  import opened UsdStageRelease

  const ALL := StageOptions(true, "/")
  const MASKED := StageOptions(true, "/World")
  const ROOT: Path := "root.usda"
  const CHILD: Path := "child.usda"
  const FIRST := At(1, 0)
  const SECOND := At(2, 0)

  /** The second version of the root layer references the child layer; no other file references anything. */
  const SCENE := Usd((p, stamp) => true,
                     (key, read) => if ROOT in read && read[ROOT] == SECOND then {CHILD} else {},
                     stage => 0)

  const ROOT_STAGE := Stage(StageKey(ALL, ROOT), map[ROOT := Layer(0, FIRST)], {})
  const CHILD_STAGE := Stage(StageKey(ALL, CHILD), map[CHILD := Layer(1, FIRST)], {})
  const ROOT_SLOT := Slot(0, StageKey(ALL, ROOT))
  const CHILD_SLOT := Slot(0, StageKey(ALL, CHILD))
  const LIVE := map[ROOT := Layer(0, FIRST), CHILD := Layer(1, FIRST)]

  /** A query opened both files as stages of their own and ended; then both files were written again. */
  const IDLE: State := State(
    map[ROOT := SECOND, CHILD := SECOND], LIVE, 2, LIVE,
    map[ROOT_SLOT := Entry(1, Some(Handle(0, ROOT_STAGE)), STAGE_BYTES_PER_LAYER, 1, map[]),
        CHILD_SLOT := Entry(3, Some(Handle(2, CHILD_STAGE)), STAGE_BYTES_PER_LAYER, 2, map[])],
    [WeakEntry(ROOT_SLOT, 1), WeakEntry(CHILD_SLOT, 3)], 4, 2, {}, map[])

  lemma LoadStops(usd: Usd, key: StageKey, view: map<Path, FileStamp>, read: map<Path, FileStamp>)
    requires Unread(usd.wanted(key, read), view, read) == map[] && Absent(usd.wanted(key, read), view, read) == {}
    ensures LoadLayers(usd, key, view, read, {}) == (read, {})
  {
    assert {} + Absent(usd.wanted(key, read), view, read) == {};
  }

  lemma LoadGoesOn(usd: Usd, key: StageKey, view: map<Path, FileStamp>, read: map<Path, FileStamp>)
    requires Unread(usd.wanted(key, read), view, read) != map[] && Absent(usd.wanted(key, read), view, read) == {}
    ensures LoadLayers(usd, key, view, read, {}) ==
            LoadLayers(usd, key, view, read + Unread(usd.wanted(key, read), view, read), {})
  {
    assert {} + Absent(usd.wanted(key, read), view, read) == {};
  }

  /** Composing from a root layer that references nothing. */
  lemma ComposeLone(key: StageKey, view: map<Path, FileStamp>)
    requires key.root in view && !(key.root == ROOT && view[ROOT] == SECOND)
    ensures Compose(SCENE, key, view) == Some((map[key.root := view[key.root]], {}))
  {
    var read := map[key.root := view[key.root]];
    assert SCENE.wanted(key, read) == {};
    LoadStops(SCENE, key, view, read);
  }

  /** Composing from the root layer that references the child. */
  lemma ComposeBoth(key: StageKey, view: map<Path, FileStamp>)
    requires key.root == ROOT && ROOT in view && view[ROOT] == SECOND && CHILD in view
    ensures Compose(SCENE, key, view) == Some((map[ROOT := SECOND, CHILD := view[CHILD]], {}))
  {
    var read := map[ROOT := SECOND];
    var more := map[CHILD := view[CHILD]];
    assert ROOT != CHILD;
    assert SCENE.wanted(key, read) == {CHILD} == SCENE.wanted(key, read + more);
    assert Unread({CHILD}, view, read) == more;
    assert CHILD in more;
    LoadGoesOn(SCENE, key, view, read);
    LoadStops(SCENE, key, view, read + more);
    assert read + more == map[ROOT := SECOND, CHILD := view[CHILD]];
  }

  /** Another query opens the root layer, with other options. */
  function OpenMasked(memory: Memory): Request {
    Request(0, 1, StageKey(MASKED, ROOT), true, memory, _ => true)
  }

  lemma IdleLookup(memory: Memory)
    ensures LookupChanged(IDLE, OpenMasked(memory)) == map[]
    ensures SecondLive(SCENE, IDLE, OpenMasked(memory)) ==
            Kept(IDLE, LookedUp(OpenMasked(memory)), FirstRound(SCENE, IDLE, OpenMasked(memory)))
  {
    hide Kept, FirstRound;
    assert Slot(0, StageKey(MASKED, ROOT)) !in IDLE.caches;
    assert map[] + FirstRound(SCENE, IDLE, OpenMasked(memory)) == FirstRound(SCENE, IDLE, OpenMasked(memory));
  }

  lemma IdleKept(dropped: set<Slot>)
    requires CHILD_SLOT !in dropped
    ensures Kept(IDLE, dropped, map[ROOT := Layer(0, FIRST)]) == map[CHILD := Layer(1, FIRST)]
  {
    var changed := map[ROOT := Layer(0, FIRST)];
    assert ROOT != CHILD;
    assert ROOT in ROOT_STAGE.layers && UsesChanged(IDLE.caches[ROOT_SLOT], changed);
    assert !UsesChanged(IDLE.caches[CHILD_SLOT], changed);
    assert CHILD_SLOT in IDLE.caches && CHILD in CHILD_STAGE.layers;
  }

  lemma FirstRoundIdle(memory: Memory)
    ensures FirstRound(SCENE, IDLE, OpenMasked(memory)) == map[ROOT := Layer(0, FIRST)]
  {
    hide Compose;
    assert ROOT != CHILD;
    assert Slot(0, StageKey(MASKED, ROOT)) !in IDLE.caches;
    ComposeLone(StageKey(MASKED, ROOT), Visible(SCENE, IDLE.files, IDLE.live));
  }

  lemma SecondRoundIdle(memory: Memory)
    ensures SecondRound(SCENE, IDLE, OpenMasked(memory)) == map[CHILD := Layer(1, FIRST)]
    ensures MayReadReached(SCENE, IDLE.files, OpenMasked(memory), SecondLive(SCENE, IDLE, OpenMasked(memory)))
  {
    hide Compose, FirstRound, Kept;
    var r := OpenMasked(memory);
    FirstRoundIdle(memory);
    IdleLookup(memory);
    IdleKept(LookedUp(r));
    ComposeBoth(r.key, Visible(SCENE, IDLE.files, map[CHILD := Layer(1, FIRST)]));
  }

  // ---------------------------------------------------------------- how the idle state comes about

  const ROOMY := Memory(4 * STAGE_BYTES_PER_LAYER, _ => 0)

  function OpenAll(path: Path): Request {
    Request(0, 0, StageKey(ALL, path), true, ROOMY, _ => true)
  }

  const HISTORY: seq<Op> := [
    Write(ROOT, 1, 0), Write(CHILD, 1, 0),
    OpenStageOp(OpenAll(ROOT)), EndQuery(0), OpenStageOp(OpenAll(CHILD)), EndQuery(0),
    Write(ROOT, 2, 0), Write(CHILD, 2, 0)]

  /** The state once a new stage is cached and handed out. */
  function CachedFirst(s: State, stage: Stage): State {
    var h := Handle(s.nextId, stage);
    var slot := Slot(0, stage.key);
    s.(caches := s.caches[slot := Entry(s.nextId + 1, Some(h), STAGE_BYTES_PER_LAYER, s.clock + 1, map[])],
       registry := s.registry + [WeakEntry(slot, s.nextId + 1)],
       nextId := s.nextId + 2, clock := s.clock + 1,
       scans := s.scans + {(0, h)}, recent := s.recent[(0, stage.key) := h])
  }

  /** The state once a layer is read for the first time. */
  function Read(s: State, path: Path): State {
    var layers := map[path := Layer(s.loads, FIRST)];
    s.(live := s.live + layers, loads := s.loads + 1, stamps := s.stamps + layers)
  }

  function LoneStage(s: State, path: Path): Stage {
    Stage(StageKey(ALL, path), map[path := Layer(s.loads, FIRST)], {})
  }

  /** The state once a file that references nothing is opened for the first time, and cached. */
  function Opened(s: State, path: Path): State {
    CachedFirst(Read(s, path), LoneStage(s, path))
  }

  const WRITTEN: State := INITIAL.(files := map[ROOT := FIRST, CHILD := FIRST])
  const NOTHING: map<Path, FileStamp> := map[]
  const ROOT_ENTRY := Entry(1, Some(Handle(0, ROOT_STAGE)), STAGE_BYTES_PER_LAYER, 1, NOTHING)

  /** Only the first file was opened. */
  const ONE_CACHED: State := State(
    map[ROOT := FIRST, CHILD := FIRST], map[ROOT := Layer(0, FIRST)], 1, map[ROOT := Layer(0, FIRST)],
    map[ROOT_SLOT := ROOT_ENTRY], [WeakEntry(ROOT_SLOT, 1)], 2, 1, {}, map[])

  const BOTH_CACHED: State := IDLE.(files := map[ROOT := FIRST, CHILD := FIRST])

  lemma OpenIsUncached(s: State, path: Path)
    requires s.recent == map[] && Slot(0, StageKey(ALL, path)) !in s.caches
    ensures Open(SCENE, s, OpenAll(path)) == OpenUncached(SCENE, s, OpenAll(path))
  {
    hide OpenUncached, Handles;
    assert s.recent - {(0, StageKey(ALL, path))} == map[];
    assert Forget(s, OpenAll(path)) == s;
  }

  lemma HasRoom(s: State)
    requires TotalMemory(DropOrder(s, 0)) <= STAGE_BYTES_PER_LAYER
    ensures MakeRoom(s, 0, ROOMY, STAGE_BYTES_PER_LAYER) == (s, true)
  {
    var order := DropOrder(s, 0);
    assert order[0..] == order;
    assert FitsAfter(ROOMY, s.caches, 0, order, 0, STAGE_BYTES_PER_LAYER);
  }

  lemma PurgedNone(caches: map<Slot, Entry>, registry: seq<WeakEntry>)
    requires forall w :: w in registry ==> Alive(caches, w)
    ensures Purged(caches, registry) == registry
  {
    if registry != [] { PurgedNone(caches, registry[1..]); }
  }

  lemma HeldFirst(s: State, path: Path, stage: Stage)
    requires stage == Stage(StageKey(ALL, path), stage.layers, {})
    requires Slot(0, stage.key) !in s.caches
    requires forall w :: w in s.registry ==> Alive(s.caches, w)
    ensures Hold(Cache(s.(nextId := s.nextId + 1), OpenAll(path), Handle(s.nextId, stage), STAGE_BYTES_PER_LAYER),
                 OpenAll(path), Handle(s.nextId, stage)) == CachedFirst(s, stage)
  {
    hide Purged;
    PurgedNone(CachedFirst(s, stage).caches, s.registry);
    assert MissingStamps(s.(nextId := s.nextId + 1), {}) == map[];
  }

  lemma StillHeld(s: State, t: State, slot: Slot, h: Handle)
    requires slot !in s.caches && s.scans <= t.scans && h in Handles(s)
    requires forall x :: x in s.caches ==> x in t.caches && t.caches[x] == s.caches[x]
    ensures h in Handles(t)
  {
    if x :| x in s.caches && s.caches[x].handle == Some(h) {
      assert x in t.caches && t.caches[x].handle == Some(h);
    }
  }

  lemma InUseAfter(s: State, stage: Stage)
    requires Slot(0, stage.key) !in s.caches
    requires forall p :: p in s.live ==> p in stage.layers || InUse(Handles(s), p)
    ensures var t := CachedFirst(s, stage); forall p :: p in t.live ==> InUse(Handles(t), p)
  {
    var t := CachedFirst(s, stage);
    assert (0, Handle(s.nextId, stage)) in t.scans;
    forall g | g in Handles(s) ensures g in Handles(t) { StillHeld(s, t, Slot(0, stage.key), g); }
  }

  lemma AllInUse(s: State)
    requires forall p :: p in s.live ==> InUse(Handles(s), p)
    ensures Collect(s) == s
  {
  }

  lemma SameOrder(s: State, t: State)
    requires s.caches == t.caches && s.registry == t.registry
    ensures DropOrder(s, 0) == DropOrder(t, 0)
  {
  }

  lemma FirstFinish(s: State, path: Path, stage: Stage)
    requires stage == Stage(StageKey(ALL, path), stage.layers, {}) && |stage.layers| == 1
    requires Slot(0, StageKey(ALL, path)) !in s.caches
    requires TotalMemory(DropOrder(s, 0)) <= STAGE_BYTES_PER_LAYER
    requires forall w :: w in s.registry ==> Alive(s.caches, w)
    requires forall p :: p in s.live ==> p in stage.layers || InUse(Handles(s), p)
    ensures Finish(SCENE, s, OpenAll(path), stage, false).0 == CachedFirst(s, stage)
  {
    hide DropOrder, TotalMemory, MakeRoom, Finish, Cache, Hold, Collect, Handles, CachedFirst, InUse, Alive;
    var h := Handle(s.nextId, stage);
    var s1 := s.(nextId := s.nextId + 1);
    FinishUnfolds(SCENE, s, OpenAll(path), stage, false);
    SameOrder(s1, s);
    HasRoom(s1);
    HeldFirst(s, path, stage);
    InUseAfter(s, stage);
    AllInUse(CachedFirst(s, stage));
  }

  lemma FirstStamps(s: State, path: Path, layers: map<Path, Layer>)
    requires path in s.files && s.files[path] == FIRST && path !in s.stamps
    requires layers.Keys == {path} && layers[path].stamp == FIRST
    ensures NewStamps(s, layers) == layers && ChangedLayers(s, layers) == map[]
  {
  }

  lemma FirstRead(s: State, path: Path)
    requires path in s.files && s.files[path] == FIRST && path !in s.live && path !in s.stamps
    ensures var s1 := s.(live := s.live + LoneStage(s, path).layers, loads := s.loads + 1);
            && OpenStage(SCENE, s, StageKey(ALL, path)) == Some((s1, LoneStage(s, path)))
            && ChangedLayers(s1, LoneStage(s, path).layers) == map[]
            && RecordLayers(s1, LoneStage(s, path).layers) == Read(s, path)
  {
    hide Compose, NewStamps;
    ComposeLone(StageKey(ALL, path), Visible(SCENE, s.files, s.live));
    var layers := LoneStage(s, path).layers;
    assert OpenStage(SCENE, s, StageKey(ALL, path)).value.1.layers == layers;
    FirstStamps(s.(live := s.live + layers, loads := s.loads + 1), path, layers);
  }

  lemma UncachedIsFinish(s: State, path: Path)
    requires path in s.files && s.files[path] == FIRST && path !in s.live && path !in s.stamps
    ensures OpenUncached(SCENE, s, OpenAll(path)) ==
            Finish(SCENE, Read(s, path), OpenAll(path), LoneStage(s, path), false)
  {
    hide Finish, OpenStage, ChangedLayers, RecordLayers;
    FirstRead(s, path);
  }

  lemma SameHandles(s: State, t: State)
    requires s.caches == t.caches && s.scans == t.scans
    ensures Handles(s) == Handles(t)
  {
  }

  lemma FirstUncached(s: State, path: Path)
    requires path in s.files && s.files[path] == FIRST && path !in s.live && path !in s.stamps
    requires Slot(0, StageKey(ALL, path)) !in s.caches
    requires TotalMemory(DropOrder(s, 0)) <= STAGE_BYTES_PER_LAYER
    requires forall p :: p in s.live ==> InUse(Handles(s), p)
    requires forall w :: w in s.registry ==> Alive(s.caches, w)
    ensures OpenUncached(SCENE, s, OpenAll(path)).0 == Opened(s, path)
  {
    hide DropOrder, TotalMemory, Finish, OpenUncached, Handles, Alive, CachedFirst;
    var t := Read(s, path);
    UncachedIsFinish(s, path);
    SameOrder(t, s);
    SameHandles(t, s);
    assert |LoneStage(s, path).layers.Keys| == 1;
    FirstFinish(t, path, LoneStage(s, path));
  }

  lemma FirstOpen(s: State, path: Path)
    requires path in s.files && s.files[path] == FIRST && path !in s.live && path !in s.stamps
    requires Slot(0, StageKey(ALL, path)) !in s.caches && s.recent == map[]
    requires TotalMemory(DropOrder(s, 0)) <= STAGE_BYTES_PER_LAYER
    requires forall p :: p in s.live ==> InUse(Handles(s), p)
    requires forall w :: w in s.registry ==> Alive(s.caches, w)
    ensures Open(SCENE, s, OpenAll(path)).0 == Opened(s, path)
  {
    hide Open, OpenUncached, DropOrder, TotalMemory, Handles, Alive, Opened;
    FirstUncached(s, path);
    OpenIsUncached(s, path);
  }

  /** The query that opened the file ends; the cache keeps the stage. */
  lemma QueryEnds(s: State, path: Path, t: State)
    requires s.scans == {} && s.recent == map[]
    requires t == Opened(s, path).(scans := {}, recent := map[])
    requires Slot(0, StageKey(ALL, path)) !in s.caches
    requires forall p :: p in s.live ==> InUse(Handles(s), p)
    ensures Step(SCENE, Opened(s, path), EndQuery(0)) == t
    ensures forall p :: p in t.live ==> InUse(Handles(t), p)
  {
    var stage := LoneStage(s, path);
    var slot := Slot(0, stage.key);
    assert t.caches[slot].handle == Some(Handle(s.nextId, stage));
    forall g | g in Handles(s) ensures g in Handles(t) { StillHeld(s, t, slot, g); }
    AllInUse(t);
    var u := Opened(s, path);
    assert (set held | held in u.scans && held.0 != 0) == {};
    assert (map k | k in u.recent && k.0 != 0 :: u.recent[k]) == map[];
  }

  lemma EmptyOrder()
    ensures TotalMemory(DropOrder(WRITTEN, 0)) == 0
  {
  }

  lemma OpenedRoot()
    ensures Opened(WRITTEN, ROOT).(scans := {}, recent := map[]) == ONE_CACHED
  {
  }

  lemma FirstQuery()
    ensures Opened(WRITTEN, ROOT).(scans := {}, recent := map[]) == ONE_CACHED
    ensures Step(SCENE, WRITTEN, OpenStageOp(OpenAll(ROOT))) == Opened(WRITTEN, ROOT)
    ensures Step(SCENE, Opened(WRITTEN, ROOT), EndQuery(0)) == ONE_CACHED
    ensures forall p :: p in ONE_CACHED.live ==> InUse(Handles(ONE_CACHED), p)
  {
    hide Opened, Open;
    EmptyOrder();
    FirstOpen(WRITTEN, ROOT);
    OpenedRoot();
    QueryEnds(WRITTEN, ROOT, ONE_CACHED);
  }

  lemma OneOrder()
    ensures TotalMemory(DropOrder(ONE_CACHED, 0)) == STAGE_BYTES_PER_LAYER
  {
    var c := Cached(ROOT_SLOT, ROOT_ENTRY);
    assert ONE_CACHED.registry[1..] == [] && Snapshot(ONE_CACHED.caches, ONE_CACHED.registry) == [c];
    assert [c][1..] == [] && OwnedBy([c], 0) == [c];
    assert SortedByUse([]) == [] && InsertByUse(c, []) == [c] + [] == [c];
  }

  lemma OpenedChild()
    ensures Opened(ONE_CACHED, CHILD).(scans := {}, recent := map[]) == BOTH_CACHED
  {
    assert ROOT != CHILD;
  }

  lemma SecondQuery()
    ensures Step(SCENE, ONE_CACHED, OpenStageOp(OpenAll(CHILD))) == Opened(ONE_CACHED, CHILD)
    ensures Step(SCENE, Opened(ONE_CACHED, CHILD), EndQuery(0)) == BOTH_CACHED
  {
    hide Opened, Open, DropOrder;
    FirstQuery();
    OneOrder();
    assert ROOT != CHILD;
    FirstOpen(ONE_CACHED, CHILD);
    OpenedChild();
    QueryEnds(ONE_CACHED, CHILD, BOTH_CACHED);
  }

  const ONE_WRITTEN: State := INITIAL.(files := map[ROOT := FIRST])
  const ONE_REWRITTEN: State := BOTH_CACHED.(files := map[ROOT := SECOND, CHILD := FIRST])

  lemma Writes()
    ensures Step(SCENE, INITIAL, Write(ROOT, 1, 0)) == ONE_WRITTEN
    ensures Step(SCENE, ONE_WRITTEN, Write(CHILD, 1, 0)) == WRITTEN
    ensures Step(SCENE, BOTH_CACHED, Write(ROOT, 2, 0)) == ONE_REWRITTEN
    ensures Step(SCENE, ONE_REWRITTEN, Write(CHILD, 2, 0)) == IDLE
  {
    assert ROOT != CHILD;
    assert INITIAL.files[ROOT := FIRST] == map[ROOT := FIRST];
    assert ONE_WRITTEN.files[CHILD := FIRST] == WRITTEN.files;
    assert BOTH_CACHED.files[ROOT := SECOND] == ONE_REWRITTEN.files;
    assert ONE_REWRITTEN.files[CHILD := SECOND] == IDLE.files;
  }

  lemma {:induction false} RunThrough(ops: seq<Op>, states: seq<State>)
    requires |states| == |ops| + 1
    requires forall i :: 0 <= i < |ops| ==> Step(SCENE, states[i], ops[i]) == states[i + 1]
    ensures Run(SCENE, states[0], ops) == states[|ops|]
  {
    hide Step;
    if ops == [] {
    } else {
      assert Step(SCENE, states[0], ops[0]) == states[1];
      RunThrough(ops[1..], states[1..]);
    }
  }

  lemma RunHistory(states: seq<State>)
    requires |states| == 9
    requires Step(SCENE, states[0], Write(ROOT, 1, 0)) == states[1]
    requires Step(SCENE, states[1], Write(CHILD, 1, 0)) == states[2]
    requires Step(SCENE, states[2], OpenStageOp(OpenAll(ROOT))) == states[3]
    requires Step(SCENE, states[3], EndQuery(0)) == states[4]
    requires Step(SCENE, states[4], OpenStageOp(OpenAll(CHILD))) == states[5]
    requires Step(SCENE, states[5], EndQuery(0)) == states[6]
    requires Step(SCENE, states[6], Write(ROOT, 2, 0)) == states[7]
    requires Step(SCENE, states[7], Write(CHILD, 2, 0)) == states[8]
    ensures Run(SCENE, states[0], HISTORY) == states[8]
  {
    hide Step, Run;
    RunThrough(HISTORY, states);
  }

  /** The idle state is what becomes of the history. */
  lemma IdleIsReached()
    ensures Run(SCENE, INITIAL, HISTORY) == IDLE
  {
    hide *;
    FirstQuery();
    SecondQuery();
    Writes();
    RunHistory([INITIAL, ONE_WRITTEN, WRITTEN, Opened(WRITTEN, ROOT), ONE_CACHED,
                Opened(ONE_CACHED, CHILD), BOTH_CACHED, ONE_REWRITTEN, IDLE]);
  }

  // ---------------------------------------------------------------- the open that warns

  lemma IdleWarns(memory: Memory)
    ensures var o := Open(SCENE, IDLE, OpenMasked(memory)).1; o.Served? && o.warned
  {
    hide Inv, Run, Open, FirstRound, SecondRound, SecondLive, MayReadReached;
    var r := OpenMasked(memory);
    IdleIsReached();
    RunHolds(SCENE, HISTORY);
    FirstRoundIdle(memory);
    SecondRoundIdle(memory);
    assert ROOT in map[ROOT := Layer(0, FIRST)] && CHILD in map[CHILD := Layer(1, FIRST)];
    assert !IsShared(IDLE, r) && !IsUsable(IDLE, r);
    WarnsExactlyWhen(SCENE, IDLE, r);
  }

  /** No query is running, and opening the root layer with other options warns: the old root layer is released, but the
      new one references the child, whose old copy the other cached stage keeps. */
  lemma WarnsWithoutRunningQuery(memory: Memory)
    ensures var s := Run(SCENE, INITIAL, HISTORY);
            var o := Open(SCENE, s, OpenMasked(memory)).1;
            s.scans == {} && o.Served? && o.warned
  {
    hide Run, Open;
    IdleIsReached();
    IdleWarns(memory);
  }
}
