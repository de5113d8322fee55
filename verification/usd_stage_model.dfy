/** The state that opening stages works on, and what each operation does to it.

    A version of a file is its path and stamp: equal stamps mean equal contents, so stamps stand for contents.
    OpenUSD is an environment: `Usd.wanted` says which files a composition asks for next, as a function of the
    versions it has read so far, and `Usd.readable` which versions parse as a layer. Both are arbitrary. */
module UsdStageModel {
  import opened Wrappers

  type Path = string

  /** A file's modification time and size. A file that does not exist has no time and size -1. */
  datatype FileStamp = NoFile | At(time: int, size: int)

  datatype StageOptions = StageOptions(loadPayloads: bool, maskPath: Path)

  /** What a stage is cached under: its options and the absolute path of its root layer. */
  datatype StageKey = StageKey(options: StageOptions, root: Path)

  /** A layer in memory, or a stamp table entry: the load that read it (its identity, never reused for the same path)
      and the stamp of its file at that time. */
  datatype Layer = Layer(load: nat, stamp: FileStamp)

  /** A composed stage: the layers it uses and the assets it failed to load. */
  datatype Stage = Stage(key: StageKey, layers: map<Path, Layer>, missing: set<Path>)

  /** A UsdStageHandle. The id is the identity of the shared object. */
  datatype Handle = Handle(id: nat, stage: Stage)

  /** A UsdCachedStage. `handle` is None once released; `missing` has the stamp each missing asset resolved to. */
  datatype Entry = Entry(id: nat, handle: Option<Handle>, memory: nat, lastUsed: nat, missing: map<Path, FileStamp>)

  /** A place in the object cache of a database. */
  datatype Slot = Slot(db: nat, key: StageKey)

  /** A weak pointer to a cached entry: it can be locked while the entry is still in its slot. */
  datatype WeakEntry = WeakEntry(slot: Slot, id: nat)

  /** A cached entry with the slot it is in. */
  datatype Cached = Cached(slot: Slot, entry: Entry)

  datatype Usd = Usd(readable: (Path, FileStamp) -> bool,
                     wanted: (StageKey, map<Path, FileStamp>) -> set<Path>,
                     primCount: Stage -> nat)

  /** The memory a database may use, and what it uses: that depends on what is cached. */
  datatype Memory = Memory(limit: nat, used: map<Slot, Entry> -> nat)

  datatype State = State(
    files: map<Path, FileStamp>,            // the file system
    live: map<Path, Layer>,                 // the layers USD keeps in memory, shared by all stages
    loads: nat,                             // identifies the next load
    stamps: map<Path, Layer>,               // UsdLayerStamps
    caches: map<Slot, Entry>,               // the object caches of all databases
    registry: seq<WeakEntry>,               // UsdCachedStageRegistry
    nextId: nat,                            // identifies the next handle or entry
    clock: nat,                             // the clock of UsdCachedStage::Touch
    scans: set<(nat, Handle)>,              // the handles that the scans of each running query hold
    recent: map<(nat, StageKey), Handle>)   // the weak pointers of each query's UsdQueryStageCache

  const INITIAL: State := State(map[], map[], 0, map[], map[], [], 0, 0, {}, map[])

  // ---------------------------------------------------------------- files and layers

  function StampOf(files: map<Path, FileStamp>, p: Path): FileStamp {
    if p in files then files[p] else NoFile
  }

  predicate Readable(usd: Usd, p: Path, stamp: FileStamp) {
    stamp.At? && usd.readable(p, stamp)
  }

  /** The versions a fresh process could read. */
  function OnDisk(usd: Usd, files: map<Path, FileStamp>): map<Path, FileStamp> {
    map p | p in files && Readable(usd, p, files[p]) :: files[p]
  }

  /** The versions an open gets here: USD reuses the layers it has in memory, even when their files changed. */
  function Visible(usd: Usd, files: map<Path, FileStamp>, live: map<Path, Layer>): map<Path, FileStamp> {
    map p | p in files.Keys + live.Keys && (p in live || Readable(usd, p, files[p]))
      :: if p in live then live[p].stamp else files[p]
  }

  /** Those of the files asked for that can be read, and were not. */
  function Unread(want: set<Path>, view: map<Path, FileStamp>, read: map<Path, FileStamp>): map<Path, FileStamp> {
    map p | p in want && p in view && p !in read :: view[p]
  }

  /** Those of the files asked for that cannot be read. */
  function Absent(want: set<Path>, view: map<Path, FileStamp>, read: map<Path, FileStamp>): set<Path> {
    set p | p in want && p !in view && p !in read
  }

  /** Reads what the composition asks for until it asks for nothing that can be read. */
  function LoadLayers(usd: Usd, key: StageKey, view: map<Path, FileStamp>, read: map<Path, FileStamp>,
                      missing: set<Path>): (map<Path, FileStamp>, set<Path>)
    decreases view.Keys - read.Keys
  {
    var want := usd.wanted(key, read);
    var more := Unread(want, view, read);
    var absent := missing + Absent(want, view, read);
    if more == map[] then (read, absent) else
      assert exists p :: p in more;
      LoadLayers(usd, key, view, read + more, absent)
  }

  /** The versions a stage is composed of and the assets it misses, or None if its root layer cannot be read. */
  function Compose(usd: Usd, key: StageKey, view: map<Path, FileStamp>): Option<(map<Path, FileStamp>, set<Path>)> {
    if key.root !in view then None
    else Some(LoadLayers(usd, key, view, map[key.root := view[key.root]], {}))
  }

  function Versions(stage: Stage): map<Path, FileStamp> {
    map p | p in stage.layers :: stage.layers[p].stamp
  }

  /** What a process that has nothing in memory would compose. */
  function FreshOpen(usd: Usd, files: map<Path, FileStamp>, key: StageKey)
    : Option<(map<Path, FileStamp>, set<Path>)>
  {
    Compose(usd, key, OnDisk(usd, files))
  }

  // ---------------------------------------------------------------- handles

  function Handles(s: State): set<Handle> {
    (set slot | slot in s.caches && s.caches[slot].handle.Some? :: s.caches[slot].handle.value) +
    (set held | held in s.scans :: held.1)
  }

  predicate InUse(handles: set<Handle>, p: Path) {
    exists h :: h in handles && p in h.stage.layers
  }

  /** USD frees the layers that no stage uses any more. */
  function Collect(s: State): State {
    var handles := Handles(s);
    s.(live := map p | p in s.live && InUse(handles, p) :: s.live[p])
  }

  // ---------------------------------------------------------------- UsdLayerStamps

  /** Whether `entry`, in the stamp table, is of this copy of the layer. */
  predicate Seen(stamps: map<Path, Layer>, p: Path, layer: Layer) {
    p in stamps && stamps[p].load == layer.load
  }

  /** ChangedLayers: those of `layers` whose files changed since they were first seen. */
  function ChangedLayers(s: State, layers: map<Path, Layer>): map<Path, Layer> {
    map p | p in layers && Seen(s.stamps, p, layers[p]) && s.stamps[p].stamp != StampOf(s.files, p) :: layers[p]
  }

  /** The stamp table entries of the layers that were not seen yet: the current stamps of their files. */
  function NewStamps(s: State, layers: map<Path, Layer>): map<Path, Layer> {
    map p | p in layers && !Seen(s.stamps, p, layers[p]) :: Layer(layers[p].load, StampOf(s.files, p))
  }

  /** The state once ChangedLayers recorded the layers it had not seen. */
  function RecordLayers(s: State, layers: map<Path, Layer>): State {
    s.(stamps := s.stamps + NewStamps(s, layers))
  }

  /** FindMissingAssets: the stamp of what each missing asset resolves to. */
  function MissingStamps(s: State, missing: set<Path>): map<Path, FileStamp> {
    map p | p in missing :: StampOf(s.files, p)
  }

  predicate MissingAssetsChanged(s: State, e: Entry) {
    exists p :: p in e.missing && e.missing[p] != StampOf(s.files, p)
  }

  // ---------------------------------------------------------------- object caches and registry

  predicate Alive(caches: map<Slot, Entry>, w: WeakEntry) {
    w.slot in caches && caches[w.slot].id == w.id
  }

  /** UsdCachedStageRegistry::Snapshot: the entries that can still be locked. */
  function Snapshot(caches: map<Slot, Entry>, registry: seq<WeakEntry>): seq<Cached> {
    if registry == [] then []
    else if Alive(caches, registry[0]) then
      [Cached(registry[0].slot, caches[registry[0].slot])] + Snapshot(caches, registry[1..])
    else Snapshot(caches, registry[1..])
  }

  /** The registry without its expired entries. */
  function Purged(caches: map<Slot, Entry>, registry: seq<WeakEntry>): seq<WeakEntry> {
    if registry == [] then []
    else (if Alive(caches, registry[0]) then [registry[0]] else []) + Purged(caches, registry[1..])
  }

  /** RemoveFromObjectCache: removes the entry from the cache of `db`, if it is there. */
  function Remove(caches: map<Slot, Entry>, db: nat, c: Cached): map<Slot, Entry> {
    var slot := Slot(db, c.slot.key);
    if slot in caches && caches[slot].id == c.entry.id then caches - {slot} else caches
  }

  predicate UsesChanged(e: Entry, changed: map<Path, Layer>) {
    e.handle.Some? &&
    exists p :: p in e.handle.value.stage.layers && p in changed && changed[p] == e.handle.value.stage.layers[p]
  }

  /** ReleaseStagesUsing: every cached stage that uses a changed layer lets go of its handle, and those of `db` leave
      its cache. */
  function Release(caches: map<Slot, Entry>, db: nat, changed: map<Path, Layer>): map<Slot, Entry> {
    map slot | slot in caches && !(slot.db == db && UsesChanged(caches[slot], changed))
      :: if UsesChanged(caches[slot], changed) then caches[slot].(handle := None) else caches[slot]
  }

  // ---------------------------------------------------------------- MakeRoom

  const STAGE_BYTES_PER_PRIM := 2560
  const STAGE_BYTES_PER_LAYER := 512 * 1024

  function EstimateStageMemory(usd: Usd, stage: Stage): nat {
    usd.primCount(stage) * STAGE_BYTES_PER_PRIM + |stage.layers| * STAGE_BYTES_PER_LAYER
  }

  function TotalMemory(cs: seq<Cached>): nat {
    if cs == [] then 0 else cs[0].entry.memory + TotalMemory(cs[1..])
  }

  /** Those of `cs` in the cache of `db`. */
  function OwnedBy(cs: seq<Cached>, db: nat): seq<Cached> {
    if cs == [] then []
    else (if cs[0].slot.db == db then [cs[0]] else []) + OwnedBy(cs[1..], db)
  }

  function InsertByUse(c: Cached, cs: seq<Cached>): seq<Cached> {
    if cs == [] || c.entry.lastUsed <= cs[0].entry.lastUsed then [c] + cs
    else [cs[0]] + InsertByUse(c, cs[1..])
  }

  /** `cs`, the least recently used first. */
  function SortedByUse(cs: seq<Cached>): seq<Cached> {
    if cs == [] then [] else InsertByUse(cs[0], SortedByUse(cs[1..]))
  }

  predicate Fits(memory: Memory, cachedMemory: nat, caches: map<Slot, Entry>, estimate: nat) {
    cachedMemory + estimate <= memory.limit / 2 && memory.used(caches) + estimate <= memory.limit
  }

  /** The object cache without the first `n` of `cs`. */
  function WithoutFirst(caches: map<Slot, Entry>, db: nat, cs: seq<Cached>, n: nat): map<Slot, Entry>
    requires n <= |cs|
  {
    if n == 0 then caches else Remove(WithoutFirst(caches, db, cs, n - 1), db, cs[n - 1])
  }

  /** Whether the new stage fits once the first `n` of `cs` are dropped. */
  predicate FitsAfter(memory: Memory, caches: map<Slot, Entry>, db: nat, cs: seq<Cached>, n: nat, estimate: nat)
    requires n <= |cs|
  {
    Fits(memory, TotalMemory(cs[n..]), WithoutFirst(caches, db, cs, n), estimate)
  }

  /** How many of `cs` are dropped, once `n` were: the loop stops as soon as the new stage fits. */
  function DropCount(memory: Memory, caches: map<Slot, Entry>, db: nat, cs: seq<Cached>, n: nat,
                     estimate: nat): (k: nat)
    requires n <= |cs|
    ensures n <= k <= |cs|
    ensures forall j :: n <= j < k ==> !FitsAfter(memory, caches, db, cs, j, estimate)
    ensures k < |cs| ==> FitsAfter(memory, caches, db, cs, k, estimate)
    decreases |cs| - n
  {
    if n == |cs| || FitsAfter(memory, caches, db, cs, n, estimate) then n
    else DropCount(memory, caches, db, cs, n + 1, estimate)
  }

  function DropOrder(s: State, db: nat): seq<Cached> {
    SortedByUse(OwnedBy(Snapshot(s.caches, s.registry), db))
  }

  /** MakeRoom: drops the least recently used stages of `db` until a new one fits; returns whether it does. */
  function MakeRoom(s: State, db: nat, memory: Memory, estimate: nat): (State, bool) {
    var order := DropOrder(s, db);
    var n := DropCount(memory, s.caches, db, order, 0, estimate);
    (s.(caches := WithoutFirst(s.caches, db, order, n)), FitsAfter(memory, s.caches, db, order, n, estimate))
  }

  /** DropCachedStages: the stages that `db` keeps leave its cache. */
  function DropCachedStages(s: State, db: nat): State {
    var cs := OwnedBy(Snapshot(s.caches, s.registry), db);
    Collect(s.(caches := WithoutFirst(s.caches, db, cs, |cs|)))
  }

  // ---------------------------------------------------------------- Open

  /** `mayRead` are the files that the database may read. */
  datatype Request = Request(
    db: nat, query: nat, key: StageKey, cacheEnabled: bool, memory: Memory, mayRead: Path -> bool)

  datatype Source = FromQuery | FromCache | Opened(cached: bool)

  /** A failure to open the stage, an error that a file may not be read, or a stage. */
  datatype Outcome = Failed | Refused | Served(handle: Handle, source: Source, warned: bool)

  datatype Lookup = Miss | Denied | Hit(handle: Handle)

  /** VerifyCanAccessLayers: USD shares layers between databases, so each checks what its stages use. */
  predicate MayReadAll(r: Request, stage: Stage) {
    forall p :: p in stage.layers ==> r.mayRead(p)
  }

  /** The handle goes to the scan that opens it, and into the query's own cache. */
  function Hold(s: State, r: Request, h: Handle): State {
    s.(scans := s.scans + {(r.query, h)}, recent := s.recent[(r.query, r.key) := h])
  }

  function FindCachedStage(s: State, r: Request): (State, Lookup) {
    var slot := Slot(r.db, r.key);
    if slot !in s.caches then (s, Miss) else
      var e := s.caches[slot];
      if e.handle.None? then (s.(caches := s.caches - {slot}), Miss) else
        var layers := e.handle.value.stage.layers;
        var changed := ChangedLayers(s, layers);
        var checked := RecordLayers(s, layers);
        if changed == map[] && !MissingAssetsChanged(checked, e) then
          if !MayReadAll(r, e.handle.value.stage) then (checked, Denied) else
            (checked.(clock := s.clock + 1, caches := s.caches[slot := e.(lastUsed := s.clock + 1)]),
             Hit(e.handle.value))
        else
          var released := if changed != map[] then Release(s.caches, r.db, changed) else s.caches;
          // the entry lets go of its stage, and leaves the cache if it is still there
          (Collect(checked.(caches := released - {slot})), Miss)
  }

  /** OpenStage: composes the stage from what is visible. The layers it reads get the identity of this load. */
  function OpenStage(usd: Usd, s: State, key: StageKey): Option<(State, Stage)> {
    match Compose(usd, key, Visible(usd, s.files, s.live))
    case None => None
    case Some((versions, missing)) =>
      var layers := map p | p in versions :: if p in s.live then s.live[p] else Layer(s.loads, versions[p]);
      Some((s.(live := s.live + layers, loads := s.loads + 1), Stage(key, layers, missing)))
  }

  /** Puts a new entry into the object cache, and adds it to the registry. */
  function Cache(s: State, r: Request, h: Handle, estimate: nat): State {
    var slot := Slot(r.db, r.key);
    var e := Entry(s.nextId, Some(h), estimate, s.clock + 1, MissingStamps(s, h.stage.missing));
    var caches := s.caches[slot := e];
    s.(caches := caches, nextId := s.nextId + 1, clock := s.clock + 1,
       registry := Purged(caches, s.registry) + [WeakEntry(slot, e.id)])
  }

  /** The rest of an open, once the stage is composed: the stage is cached unless a layer is out of date. */
  function Finish(usd: Usd, s: State, r: Request, stage: Stage, warned: bool): (State, Outcome) {
    if !MayReadAll(r, stage) then (Collect(s), Refused) else
      var h := Handle(s.nextId, stage);
      var s1 := s.(nextId := s.nextId + 1);
      if !r.cacheEnabled || warned then (Collect(Hold(s1, r, h)), Served(h, Opened(false), warned)) else
        var estimate := EstimateStageMemory(usd, stage);
        var (s2, fits) := MakeRoom(s1, r.db, r.memory, estimate);
        if !fits then (Collect(Hold(s2, r, h)), Served(h, Opened(false), warned)) else
          (Collect(Hold(Cache(s2, r, h, estimate), r, h)), Served(h, Opened(true), warned))
  }

  /** ReleaseStagesUsing, and what USD frees as a result. */
  function LetGo(s: State, db: nat, changed: map<Path, Layer>): State {
    Collect(s.(caches := Release(s.caches, db, changed)))
  }

  /** Composes the stage. If USD reused layers whose files changed, the cached stages that hold them let go of them and
      the stage is composed again. */
  function OpenUncached(usd: Usd, s: State, r: Request): (State, Outcome) {
    match OpenStage(usd, s, r.key)
    case None => (s, Failed)
    case Some((s1, stage)) =>
      var changed := ChangedLayers(s1, stage.layers);
      var s2 := RecordLayers(s1, stage.layers);
      if changed == map[] then Finish(usd, s2, r, stage, false) else
        var s3 := LetGo(s2, r.db, changed);
        match OpenStage(usd, s3, r.key)
        case None => (s3, Failed)
        case Some((s4, again)) =>
          var stillChanged := ChangedLayers(s4, again.layers);
          Finish(usd, RecordLayers(s4, again.layers), r, again, stillChanged != map[])
  }

  /** The query already has the stage open. */
  predicate IsShared(s: State, r: Request) {
    (r.query, r.key) in s.recent && s.recent[(r.query, r.key)] in Handles(s)
  }

  /** UsdQueryStageCache::Find: forgets a stage that is no longer held. */
  function Forget(s: State, r: Request): State {
    s.(recent := s.recent - {(r.query, r.key)})
  }

  /** The lookup in the cache of the database, if it is enabled. */
  function LookUp(s: State, r: Request): (State, Lookup) {
    if r.cacheEnabled then FindCachedStage(s, r) else (s, Miss)
  }

  /** The rest of an open of a stage that the query does not share. */
  function OpenNew(usd: Usd, s: State, r: Request): (State, Outcome) {
    if !r.mayRead(r.key.root) then (s, Refused) else
      var (s1, lookup) := LookUp(s, r);
      match lookup
      case Hit(h) => (Hold(s1, r, h), Served(h, FromCache, false))
      case Denied => (s1, Refused)
      case Miss => OpenUncached(usd, s1, r)
  }

  /** UsdStageProvider::Open */
  function Open(usd: Usd, s: State, r: Request): (State, Outcome) {
    if IsShared(s, r) then
      var h := s.recent[(r.query, r.key)];
      (Hold(s, r, h), Served(h, FromQuery, false))
    else OpenNew(usd, Forget(s, r), r)
  }

  // ---------------------------------------------------------------- runs

  datatype Op =
    | Write(path: Path, time: int, size: int)
    | Delete(path: Path)
    | OpenStageOp(request: Request)
    | EndScan(query: nat, handle: Handle)
    | EndQuery(query: nat)
    | Evict(slot: Slot)
    | Drop(db: nat)

  function Step(usd: Usd, s: State, op: Op): State {
    match op
    case Write(p, time, size) => s.(files := s.files[p := At(time, size)])
    case Delete(p) => s.(files := s.files - {p})
    case OpenStageOp(r) => Open(usd, s, r).0
    case EndScan(q, h) => Collect(s.(scans := s.scans - {(q, h)}))
    case EndQuery(q) =>
      Collect(s.(scans := (set held | held in s.scans && held.0 != q),
                 recent := (map k | k in s.recent && k.0 != q :: s.recent[k])))
    case Evict(slot) => Collect(s.(caches := s.caches - {slot}))
    case Drop(db) => DropCachedStages(s, db)
  }

  function Run(usd: Usd, s: State, ops: seq<Op>): State
    decreases |ops|
  {
    if ops == [] then s else Run(usd, Step(usd, s, ops[0]), ops[1..])
  }
}
