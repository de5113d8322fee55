/** The stamp table. It is pruned of the layers USD has freed; that is invisible, and cheap. */
module UsdLayerStamps {
  import opened UsdStageModel
  import opened Wrappers

  const FIRST_PRUNE: nat := 1024

  /** The copies of layers that are in memory, by the path of their file and the load that read them. */
  type Copies = set<(Path, nat)>

  datatype Table = Table(layers: map<Path, Layer>, pruneAt: nat)

  function Larger(a: nat, b: nat): nat {
    if a < b then b else a
  }

  /** The table without the entries whose weak handle has expired. */
  function Prune(t: Table, alive: Copies): Table {
    var kept := map p | p in t.layers && (p, t.layers[p].load) in alive :: t.layers[p];
    Table(kept, Larger(FIRST_PRUNE, 2 * |kept|))
  }

  predicate Full(t: Table) {
    |t.layers| >= t.pruneAt
  }

  function Pruned(t: Table, alive: Copies): Table {
    if Full(t) then Prune(t, alive) else t
  }

  /** The entry for `p` once a layer was checked: its first stamp, kept as long as it is of the same copy. */
  function Recorded(layers: map<Path, Layer>, p: Path, load: nat, current: FileStamp): map<Path, Layer> {
    if Seen(layers, p, Layer(load, current)) then layers else layers[p := Layer(load, current)]
  }

  /** Whether the file of this copy changed since it was first checked. */
  predicate Answer(layers: map<Path, Layer>, p: Path, load: nat, current: FileStamp) {
    Seen(layers, p, Layer(load, current)) && layers[p].stamp != current
  }

  /** Changed, for a layer that has a file. */
  function Check(t: Table, alive: Copies, p: Path, load: nat, current: FileStamp): (Table, bool) {
    var u := Pruned(t, alive);
    (u.(layers := Recorded(u.layers, p, load, current)), Answer(u.layers, p, load, current))
  }

  class LayerStamps {
    var layers: map<Path, Layer>
    var pruneAt: nat

    ghost function Now(): Table
      reads this
    {
      Table(layers, pruneAt)
    }

    constructor ()
      ensures Now() == Table(map[], FIRST_PRUNE)
    {
      layers, pruneAt := map[], FIRST_PRUNE;
    }

    method PruneInPlace(alive: Copies)
      modifies this
      ensures Now() == Prune(old(Now()), alive)
    {
      var todo := layers.Keys;
      ghost var was := layers;
      while todo != {}
        invariant todo <= was.Keys
        invariant layers == map p | p in was && (p in todo || (p, was[p].load) in alive) :: was[p]
        decreases todo
      {
        var p :| p in todo;
        if (p, layers[p].load) !in alive {
          layers := layers - {p};
        }
        todo := todo - {p};
      }
      assert layers == Prune(old(Now()), alive).layers;
      pruneAt := Larger(FIRST_PRUNE, 2 * |layers|);
    }

    /** UsdLayerStamps::Changed. A layer without a file never changes. */
    method Changed(alive: Copies, p: Path, load: nat, hasFile: bool, current: FileStamp) returns (changed: bool)
      modifies this
      ensures !hasFile ==> !changed && Now() == old(Now())
      ensures hasFile ==> (Now(), changed) == Check(old(Now()), alive, p, load, current)
      ensures hasFile && (p, load) in alive ==>
                if p in old(layers) && old(layers)[p].load == load
                then (changed <==> old(layers)[p].stamp != current) && p in layers && layers[p] == old(layers)[p]
                else !changed && p in layers && layers[p] == Layer(load, current)
      ensures forall q :: q != p && q in layers ==> q in old(layers) && layers[q] == old(layers)[q]
      ensures forall q :: q != p && q in old(layers) && (q, old(layers)[q].load) in alive ==> q in layers
    {
      if !hasFile {
        return false;
      }
      if |layers| >= pruneAt {
        PruneInPlace(alive);
      }
      if p !in layers || layers[p].load != load {
        layers := layers[p := Layer(load, current)];
        return false;
      }
      return layers[p].stamp != current;
    }
  }

  // ---------------------------------------------------------------- runs

  /** USD loads a layer, of which it has no more than one copy in memory, or frees one; the table is asked about one. */
  datatype Event = Load(path: Path) | Free(path: Path, load: nat) | Ask(path: Path, load: nat, current: FileStamp)

  /** The table beside one that is never pruned, with the answers of both. `inserted` counts the entries added,
      `visited` those that prunes looked at, and `base` is the size right after the last prune. */
  datatype World = World(alive: Copies, loads: nat, table: Table, answers: seq<bool>,
                         unpruned: map<Path, Layer>, expected: seq<bool>,
                         inserted: nat, visited: nat, base: nat)

  const START := World({}, 0, Table(map[], FIRST_PRUNE), [], map[], [], 0, 0, 0)

  function Next(w: World, e: Event): World {
    match e
    case Load(p) =>
      if exists c :: c in w.alive && c.0 == p then w else
        w.(alive := w.alive + {(p, w.loads)}, loads := w.loads + 1)
    case Free(p, load) => w.(alive := w.alive - {(p, load)})
    case Ask(p, load, current) =>
      if (p, load) !in w.alive then w else   // only layers that are in memory are asked about
        var (t, changed) := Check(w.table, w.alive, p, load, current);
        var pruned := Pruned(w.table, w.alive);
        w.(table := t, answers := w.answers + [changed],
           unpruned := Recorded(w.unpruned, p, load, current),
           expected := w.expected + [Answer(w.unpruned, p, load, current)],
           inserted := w.inserted + (if p in pruned.layers then 0 else 1),
           visited := w.visited + (if Full(w.table) then |w.table.layers| else 0),
           base := if Full(w.table) then |pruned.layers| else w.base)
  }

  function Run(w: World, events: seq<Event>): World
    decreases |events|
  {
    if events == [] then w else Run(Next(w, events[0]), events[1..])
  }

  /** The table has the entries of the unpruned one, those of layers in memory at least. */
  ghost predicate Agrees(w: World) {
    && (forall p :: p in w.table.layers ==> p in w.unpruned && w.table.layers[p] == w.unpruned[p])
    && (forall p :: p in w.unpruned && (p, w.unpruned[p].load) in w.alive ==> p in w.table.layers)
    && (forall p :: p in w.unpruned ==> w.unpruned[p].load < w.loads)
    && (forall c :: c in w.alive ==> c.1 < w.loads)
  }

  /** Prunes are paid for by the entries added since the last one. */
  ghost predicate Cheap(w: World) {
    && |w.table.layers| <= w.table.pruneAt
    && 2 * w.base <= w.table.pruneAt
    && w.base <= |w.table.layers|
    && w.visited + 2 * (|w.table.layers| - w.base) <= 2 * w.inserted
    && 1024 <= w.table.pruneAt && |w.table.layers| <= w.inserted
    && (w.inserted < 1024 ==> w.visited == 0)
  }

  lemma NextAgrees(w: World, e: Event)
    requires Agrees(w)
    ensures Agrees(Next(w, e))
    ensures e.Ask? && (e.path, e.load) in w.alive ==>
              Check(w.table, w.alive, e.path, e.load, e.current).1 == Answer(w.unpruned, e.path, e.load, e.current)
  {
  }

  lemma {:induction false} SubsetSize(a: set<Path>, b: set<Path>)
    requires a <= b
    ensures |a| <= |b|
  {
    if a != {} {
      var p :| p in a;
      SubsetSize(a - {p}, b - {p});
    }
  }

  lemma KeptSize(m: map<Path, Layer>, kept: map<Path, Layer>)
    requires forall p :: p in kept ==> p in m && kept[p] == m[p]
    ensures |kept| <= |m| && (|kept| == |m| ==> kept == m)
  {
    assert kept.Keys <= m.Keys;
    if p :| p in m && p !in kept {
      SubsetSize(kept.Keys, m.Keys - {p});
      assert |kept.Keys| == |kept| && |m.Keys - {p}| == |m| - 1;
    } else {
      assert kept == m;
    }
  }

  lemma NextCheap(w: World, e: Event)
    requires Cheap(w)
    ensures Cheap(Next(w, e))
  {
    if e.Ask? && (e.path, e.load) in w.alive {
      var pruned := Pruned(w.table, w.alive);
      KeptSize(w.table.layers, Prune(w.table, w.alive).layers);
      var recorded := Recorded(pruned.layers, e.path, e.load, e.current);
      if e.path in pruned.layers {
        assert recorded.Keys == pruned.layers.Keys;
      } else {
        assert recorded.Keys == pruned.layers.Keys + {e.path};
      }
      assert |recorded| == |recorded.Keys| && |pruned.layers| == |pruned.layers.Keys|;
    }
  }

  lemma {:induction false} RunHolds(w: World, events: seq<Event>)
    requires Agrees(w) && Cheap(w) && w.answers == w.expected
    ensures var r := Run(w, events); Agrees(r) && Cheap(r) && r.answers == r.expected
    decreases |events|
  {
    if events == [] {
    } else {
      NextAgrees(w, events[0]);
      NextCheap(w, events[0]);
      RunHolds(Next(w, events[0]), events[1..]);
    }
  }

  /** On any sequence of loads, frees and questions, the table gives the answers of one that is never pruned, does not
      outgrow `pruneAt`, and all its prunes together look at no more than two entries for each one added: at none before
      1024 were. */
  lemma PruningIsInvisibleAndCheap(events: seq<Event>)
    ensures var w := Run(START, events);
            && w.answers == w.expected
            && |w.table.layers| <= w.table.pruneAt
            && w.visited <= 2 * w.inserted
            && (w.inserted < 1024 ==> w.visited == 0)
  {
    RunHolds(START, events);
  }

  // ---------------------------------------------------------------- what the answers mean

  /** Event number `i` asks about this copy, which is in memory. */
  ghost predicate AskedAt(events: seq<Event>, i: nat, p: Path, load: nat) {
    && i < |events| && events[i].Ask? && events[i].path == p && events[i].load == load
    && (p, load) in Run(START, events[..i]).alive
  }

  ghost predicate FirstAskedAt(events: seq<Event>, i: nat, p: Path, load: nat) {
    AskedAt(events, i, p, load) && forall j: nat :: j < i ==> !AskedAt(events, j, p, load)
  }

  /** The stamp that was current the first time this copy was asked about. */
  ghost function FirstStamp(events: seq<Event>, p: Path, load: nat): Option<FileStamp>
    decreases |events|
  {
    if events == [] then None else
      var before, e := events[..|events| - 1], events[|events| - 1];
      var first := FirstStamp(before, p, load);
      if first.Some? then first
      else if e.Ask? && e.path == p && e.load == load && (p, load) in Run(START, before).alive then Some(e.current)
      else None
  }

  /** The unpruned table has the first stamp of each copy in memory that was asked about. */
  ghost predicate HasFirstStamps(events: seq<Event>, w: World) {
    && (forall c, d :: c in w.alive && d in w.alive && c.0 == d.0 ==> c == d)
    && (forall p, load: nat :: FirstStamp(events, p, load).Some? ==> load < w.loads)
    && (forall p, load: nat :: (p, load) in w.alive ==>
          match FirstStamp(events, p, load)
          case None => !(p in w.unpruned && w.unpruned[p].load == load)
          case Some(stamp) => p in w.unpruned && w.unpruned[p] == Layer(load, stamp))
  }

  lemma {:induction false} RunSnoc(w: World, events: seq<Event>, e: Event)
    ensures Run(w, events + [e]) == Next(Run(w, events), e)
    decreases |events|
  {
    if events == [] {
      assert events + [e] == [e] && [e][1..] == [];
    } else {
      assert (events + [e])[0] == events[0] && (events + [e])[1..] == events[1..] + [e];
      RunSnoc(Next(w, events[0]), events[1..], e);
    }
  }

  lemma FirstStampSnoc(events: seq<Event>, e: Event, p: Path, load: nat)
    ensures FirstStamp(events + [e], p, load) ==
            if FirstStamp(events, p, load).Some? then FirstStamp(events, p, load)
            else if e.Ask? && e.path == p && e.load == load && (p, load) in Run(START, events).alive
            then Some(e.current) else None
  {
    hide Run;
    assert (events + [e])[..|events|] == events;
  }

  lemma NextHasFirstStamps(events: seq<Event>, e: Event)
    requires var w := Run(START, events); Agrees(w) && HasFirstStamps(events, w)
    ensures HasFirstStamps(events + [e], Next(Run(START, events), e))
  {
    hide Check, Pruned, Run, FirstStamp;
    var w := Run(START, events);
    forall p, load: nat
      ensures FirstStamp(events + [e], p, load) ==
              if FirstStamp(events, p, load).Some? then FirstStamp(events, p, load)
              else if e.Ask? && e.path == p && e.load == load && (p, load) in w.alive then Some(e.current) else None
    {
      FirstStampSnoc(events, e, p, load);
    }
  }

  lemma NothingAsked()
    ensures Agrees(START) && HasFirstStamps([], START)
  {
  }

  lemma {:induction false} RunHasFirstStamps(events: seq<Event>)
    ensures var w := Run(START, events); Agrees(w) && HasFirstStamps(events, w)
    decreases |events|
  {
    hide Agrees, HasFirstStamps, Next;
    if events == [] {
      NothingAsked();
    } else {
      var before, e := events[..|events| - 1], events[|events| - 1];
      RunHasFirstStamps(before);
      assert before + [e] == events;
      RunSnoc(START, before, e);
      NextHasFirstStamps(before, e);
      NextAgrees(Run(START, before), e);
    }
  }

  lemma {:induction false} FirstStampIsFirst(events: seq<Event>, p: Path, load: nat)
    ensures match FirstStamp(events, p, load)
            case None => forall i: nat :: !AskedAt(events, i, p, load)
            case Some(stamp) => exists i: nat :: FirstAskedAt(events, i, p, load) && events[i].current == stamp
    decreases |events|
  {
    hide Run;
    if events == [] {
    } else {
      var before, e := events[..|events| - 1], events[|events| - 1];
      FirstStampIsFirst(before, p, load);
      forall i: nat | i < |before| ensures AskedAt(events, i, p, load) <==> AskedAt(before, i, p, load) {
        assert events[..i] == before[..i];
      }
      if FirstStamp(before, p, load).Some? {
        var i: nat :| FirstAskedAt(before, i, p, load) && Some(before[i].current) == FirstStamp(before, p, load);
        assert FirstAskedAt(events, i, p, load);
      } else if FirstStamp(events, p, load).Some? {
        assert FirstAskedAt(events, |before|, p, load);
      }
    }
  }

  lemma OneIsFirst(events: seq<Event>, p: Path, load: nat)
    ensures forall i: nat :: FirstAskedAt(events, i, p, load) ==> AskedAt(events, i, p, load)
    ensures forall i: nat, j: nat :: FirstAskedAt(events, i, p, load) && FirstAskedAt(events, j, p, load) ==> i == j
  {
    hide AskedAt;
  }

  /** Whatever happened before, a layer in memory is reported as changed if and only if it was asked about before and
      the stamp of its file is not what it was the first time. */
  lemma AnswersAreRight(events: seq<Event>, p: Path, load: nat, current: FileStamp)
    requires (p, load) in Run(START, events).alive
    ensures var changed := exists i: nat :: FirstAskedAt(events, i, p, load) && events[i].current != current;
            Run(START, events + [Ask(p, load, current)]).answers == Run(START, events).answers + [changed]
  {
    hide Run, FirstStamp, Check, Pruned, FirstAskedAt;
    var w, e := Run(START, events), Ask(p, load, current);
    RunHasFirstStamps(events);
    RunSnoc(START, events, e);
    NextAgrees(w, e);
    FirstStampIsFirst(events, p, load);
    OneIsFirst(events, p, load);
  }
}
