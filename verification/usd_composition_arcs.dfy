/** usd_composition_arcs: the arcs of each prim, with those of a prototype's prims computed once, and their paths
    mapped to each of its instances. */
module UsdCompositionArcs {
  import opened Wrappers

  // ---------------------------------------------------------------- paths

  /** An absolute prim path: the names from the root down. */
  type Path = seq<string>

  /** SdfPath: `None` is the empty path. */
  type AnyPath = Option<Path>

  function Parent(p: Path): Path
    requires p != []
  {
    p[..|p| - 1]
  }

  /** SdfPath::GetNameToken; the root's is no prim's name. */
  function Name(p: Path): Option<string> {
    if p == [] then None else Some(p[|p| - 1])
  }

  /** SdfPath::ReplacePrefix */
  function ReplacePrefix(path: AnyPath, from: Path, to: Path): AnyPath {
    if path.Some? && from <= path.value then Some(to + path.value[|from|..]) else path
  }

  /** `below` is what two paths end with below the given roots. */
  predicate CommonEnd(source: Path, target: Path, sourceRoot: Path, targetRoot: Path, below: Path) {
    source == sourceRoot + below && target == targetRoot + below
  }

  /** The roots below which two paths have the longest common end; the paths themselves if they are the same. */
  ghost predicate AreRoots(source: Path, target: Path, sourceRoot: Path, targetRoot: Path) {
    if source == target then sourceRoot == source && targetRoot == target
    else
      && sourceRoot <= source
      && CommonEnd(source, target, sourceRoot, targetRoot, source[|sourceRoot|..])
      && Name(sourceRoot) != Name(targetRoot)
  }

  /** The loop of AddPrim: goes up from both paths for as long as their names are the same. */
  method FindRoots(source: Path, target: Path) returns (sourceRoot: Path, targetRoot: Path)
    ensures AreRoots(source, target, sourceRoot, targetRoot)
  {
    sourceRoot, targetRoot := source, target;
    ghost var below: Path := [];
    while sourceRoot != targetRoot && sourceRoot != [] && Name(sourceRoot) == Name(targetRoot)
      invariant CommonEnd(source, target, sourceRoot, targetRoot, below)
      invariant source == target ==> sourceRoot == source
      decreases |sourceRoot|
    {
      below := [sourceRoot[|sourceRoot| - 1]] + below;
      sourceRoot := Parent(sourceRoot);
      targetRoot := Parent(targetRoot);
    }
    if source != target {
      assert sourceRoot != targetRoot;
      assert below == source[|sourceRoot|..];
    }
  }

  /** All paths have roots. */
  lemma {:induction false} RootsExist(source: Path, target: Path) returns (s: Path, t: Path)
    ensures AreRoots(source, target, s, t)
  {
    if source == target || source == [] || Name(source) != Name(target) {
      s, t := source, target;
      assert source + [] == source && target + [] == target && source[|source|..] == [];
    } else {
      s, t := RootsExist(Parent(source), Parent(target));
      assert source == Parent(source) + [source[|source| - 1]] && target == Parent(target) + [target[|target| - 1]];
      var below := Parent(source)[|s|..];
      assert source[|s|..] == below + [source[|source| - 1]];
      assert (t + below) + [target[|target| - 1]] == t + source[|s|..];
    }
  }

  /** There is one pair of roots: no longer common end exists. */
  lemma LongestCommonEnd(source: Path, target: Path, s: Path, t: Path, sourceRoot: Path, targetRoot: Path, below: Path)
    requires source != target && AreRoots(source, target, s, t)
    requires CommonEnd(source, target, sourceRoot, targetRoot, below)
    ensures s <= sourceRoot && t <= targetRoot && sourceRoot[|s|..] == targetRoot[|t|..]
  {
    var most := source[|s|..];
    if s != [] && t != [] {
      assert source[|s| - 1] == s[|s| - 1] && target[|t| - 1] == t[|t| - 1];
    }
    assert |sourceRoot| >= |s| && |targetRoot| >= |t|;
    forall i | 0 <= i < |s| ensures s[i] == sourceRoot[i] { assert source[i] == s[i]; }
    forall i | 0 <= i < |t| ensures t[i] == targetRoot[i] { assert target[i] == t[i]; }
    assert source == s + most && target == t + most;
    var a, b := sourceRoot[|s|..], targetRoot[|t|..];
    assert s + (a + below) == s + most && t + (b + below) == t + most;
    assert a + below == (s + (a + below))[|s|..] == most;
    assert b + below == (t + (b + below))[|t|..] == most;
    assert a == most[..|a|] && b == most[..|b|];
  }

  /** Swapping the roots takes the index path to the proxy's own path, and any path below the source root to the path
      with the same end below the proxy's. Other paths stay, and all do if the two are the same. */
  lemma SwapHolds(source: Path, target: Path, s: Path, t: Path)
    requires AreRoots(source, target, s, t)
    ensures ReplacePrefix(Some(source), s, t) == Some(target)
    ensures forall below: Path :: ReplacePrefix(Some(s + below), s, t) == Some(t + below)
    ensures forall path: Path :: !(s <= path) ==> ReplacePrefix(Some(path), s, t) == Some(path)
    ensures source == target ==> forall path: AnyPath :: ReplacePrefix(path, s, t) == path
  {
    forall below: Path ensures ReplacePrefix(Some(s + below), s, t) == Some(t + below) {
      assert (s + below)[|s|..] == below;
    }
    if source == target {
      forall path: AnyPath ensures ReplacePrefix(path, s, t) == path {
        if path.Some? && s <= path.value {
          assert s + path.value[|s|..] == path.value;
        }
      }
    }
  }

  /** The source instance's path and the proxy's own instance's path are such roots, although not always the ones that
      the loop finds. Whatever is under the source instance is mapped to the same place under the proxy's instance. A
      path outside of the source instance is kept if and only if it is not below the root that the loop finds either. */
  lemma InstancePathsSwap(source: Path, target: Path, s: Path, t: Path, sourceInstance: Path, instance: Path,
                          below: Path, path: Path)
    requires AreRoots(source, target, s, t)
    requires CommonEnd(source, target, sourceInstance, instance, below)
    ensures sourceInstance <= path ==>
      ReplacePrefix(Some(path), s, t) == Some(instance + path[|sourceInstance|..])
    ensures source != target && !(sourceInstance <= path) ==>
      (ReplacePrefix(Some(path), s, t) == Some(path) <==> !(s <= path))
  {
    if source == target {
      assert sourceInstance == source[..|source| - |below|] == instance;
      if sourceInstance <= path {
        assert sourceInstance + path[|sourceInstance|..] == path;
        SwapHolds(source, target, s, t);
      }
    } else {
      LongestCommonEnd(source, target, s, t, sourceInstance, instance, below);
      var between := sourceInstance[|s|..];
      assert sourceInstance == s + between && instance == t + between;
      if sourceInstance <= path {
        var end := path[|sourceInstance|..];
        assert path == sourceInstance + end;
        assert path == s + (between + end);
        SwapHolds(source, target, s, t);
        assert t + (between + end) == instance + end;
      } else if s <= path {
        var end := path[|s|..];
        assert path == s + end;
        assert s == path[..|path| - |end|];
        assert t == (t + end)[..|t + end| - |end|];
      }
    }
  }

  lemma RootsAreUnique(source: Path, target: Path, s: Path, t: Path, s': Path, t': Path)
    requires AreRoots(source, target, s, t) && AreRoots(source, target, s', t')
    ensures s == s' && t == t'
  {
    if source != target {
      LongestCommonEnd(source, target, s, t, s', t', source[|s'|..]);
      LongestCommonEnd(source, target, s', t', s, t, source[|s|..]);
    }
  }

  /** For two instances of one name: what is beside the source instance is mapped to the other instance's side too. */
  lemma OutsidePathsSwap()
    ensures AreRoots(["A", "Chair", "Seat"], ["B", "Chair", "Seat"], ["A"], ["B"])
    ensures CommonEnd(["A", "Chair", "Seat"], ["B", "Chair", "Seat"], ["A", "Chair"], ["B", "Chair"], ["Seat"])
    ensures ReplacePrefix(Some(["A", "Desk"]), ["A"], ["B"]) == Some(["B", "Desk"])
  {
    assert ["A", "Chair", "Seat"][1..] == ["Chair", "Seat"];
    assert ["A"] + ["Chair", "Seat"] == ["A", "Chair", "Seat"] && ["B"] + ["Chair", "Seat"] == ["B", "Chair", "Seat"];
    assert ["A"] <= ["A", "Desk"] && ["A", "Desk"][1..] == ["Desk"] && ["B"] + ["Desk"] == ["B", "Desk"];
    assert Name(["A"]) == Some("A") && Name(["B"]) == Some("B") && "A"[0] != "B"[0];
  }

  // ---------------------------------------------------------------- rows

  /** One composition arc; `introducing` is the path of the prim that introduces it, `info` is everything else. */
  datatype ArcInfo = ArcInfo(info: string, introducing: AnyPath)

  datatype Prim = Prim(path: Path, isInstanceProxy: bool, indexPath: Path)

  /** The arcs that composing a stage finds for a prim. */
  type Stage = Prim -> seq<ArcInfo>

  /** Instance proxies of the same prim of a prototype have the same arcs. */
  ghost predicate SharesArcs(stage: Stage) {
    forall p: Prim, q: Prim ::
      p.isInstanceProxy && q.isInstanceProxy && p.indexPath == q.indexPath ==> stage(p) == stage(q)
  }

  /** What is written for a row. */
  datatype OutRow = OutRow(prim: Prim, arc: ArcInfo, arcIndex: nat, introducing: AnyPath)

  /** The rows of a prim's arcs, the introducing paths of a proxy's mapped from root to root. */
  function RowsBetween(prim: Prim, arcs: seq<ArcInfo>, s: Path, t: Path): seq<OutRow> {
    seq(|arcs|, i requires 0 <= i < |arcs| => OutRow(prim, arcs[i], i, ReplacePrefix(arcs[i].introducing, s, t)))
  }

  function OwnRows(prim: Prim, arcs: seq<ArcInfo>): seq<OutRow> {
    seq(|arcs|, i requires 0 <= i < |arcs| => OutRow(prim, arcs[i], i, arcs[i].introducing))
  }

  /** `rows` are the rows of a prim whose arcs are computed just for it. */
  ghost predicate AreRowsOf(stage: Stage, prim: Prim, rows: seq<OutRow>) {
    if !prim.isInstanceProxy then rows == OwnRows(prim, stage(prim))
    else exists s, t :: AreRoots(prim.indexPath, prim.path, s, t) && rows == RowsBetween(prim, stage(prim), s, t)
  }

  /** So a prim's rows are the same whenever, and after whichever others, it is added. */
  lemma RowsAreUnique(stage: Stage, prim: Prim, a: seq<OutRow>, b: seq<OutRow>)
    requires AreRowsOf(stage, prim, a) && AreRowsOf(stage, prim, b)
    ensures a == b
  {
    hide AreRoots, RowsBetween;
    if prim.isInstanceProxy {
      var s, t :| AreRoots(prim.indexPath, prim.path, s, t) && a == RowsBetween(prim, stage(prim), s, t);
      var s', t' :| AreRoots(prim.indexPath, prim.path, s', t') && b == RowsBetween(prim, stage(prim), s', t');
      RootsAreUnique(prim.indexPath, prim.path, s, t, s', t');
    }
  }

  /** The introducing path of a row, without the roots that the loop finds. A prim that is no proxy keeps its arcs'
      paths, and the empty path stays. Whatever roots a proxy's index path and own path have the same end below, a
      path at or below the source's is mapped to the same place below the proxy's; a path that is below none of them
      is kept. */
  ghost predicate MappedTo(prim: Prim, from: AnyPath, to: AnyPath) {
    if from.None? || !prim.isInstanceProxy then to == from else
      && (forall source: Path, instance: Path, below: Path, end: Path ::
            CommonEnd(prim.indexPath, prim.path, source, instance, below) && from.value == source + end ==>
              to == Some(instance + end))
      && ((forall source: Path, instance: Path, below: Path ::
             CommonEnd(prim.indexPath, prim.path, source, instance, below) ==> !(source <= from.value)) ==> to == from)
  }

  /** One row for each arc of the prim, in their order. */
  ghost predicate AreRowsByArc(stage: Stage, prim: Prim, rows: seq<OutRow>) {
    && |rows| == |stage(prim)|
    && forall k :: 0 <= k < |rows| ==>
         && rows[k].prim == prim && rows[k].arc == stage(prim)[k] && rows[k].arcIndex == k
         && MappedTo(prim, stage(prim)[k].introducing, rows[k].introducing)
  }

  lemma RootsEnd(source: Path, target: Path, s: Path, t: Path)
    requires AreRoots(source, target, s, t)
    ensures exists below :: CommonEnd(source, target, s, t, below)
  {
    if source == target {
      assert CommonEnd(source, target, s, t, []);
    } else {
      assert CommonEnd(source, target, s, t, source[|s|..]);
    }
  }

  lemma PathIsMapped(prim: Prim, s: Path, t: Path, from: AnyPath)
    requires prim.isInstanceProxy && AreRoots(prim.indexPath, prim.path, s, t)
    ensures MappedTo(prim, from, ReplacePrefix(from, s, t))
  {
    hide AreRoots;
    if from.Some? {
      forall source: Path, instance: Path, below: Path, end: Path |
        CommonEnd(prim.indexPath, prim.path, source, instance, below) && from.value == source + end
        ensures ReplacePrefix(from, s, t) == Some(instance + end)
      {
        InstancePathsSwap(prim.indexPath, prim.path, s, t, source, instance, below, from.value);
        assert (source + end)[|source|..] == end;
      }
      RootsEnd(prim.indexPath, prim.path, s, t);
    }
  }

  lemma OwnIsMapped(prim: Prim, from: AnyPath)
    requires !prim.isInstanceProxy
    ensures MappedTo(prim, from, from)
  {
  }

  lemma RowsByArc(stage: Stage, prim: Prim, rows: seq<OutRow>)
    requires AreRowsOf(stage, prim, rows)
    ensures AreRowsByArc(stage, prim, rows)
  {
    hide AreRoots, ReplacePrefix, MappedTo;
    if prim.isInstanceProxy {
      var s, t :| AreRoots(prim.indexPath, prim.path, s, t) && rows == RowsBetween(prim, stage(prim), s, t);
      forall k | 0 <= k < |rows|
        ensures MappedTo(prim, stage(prim)[k].introducing, ReplacePrefix(stage(prim)[k].introducing, s, t))
      {
        PathIsMapped(prim, s, t, stage(prim)[k].introducing);
      }
    } else {
      forall k | 0 <= k < |rows| ensures MappedTo(prim, rows[k].introducing, rows[k].introducing) {
        OwnIsMapped(prim, rows[k].introducing);
      }
    }
  }

  /** A row's pointer to its arc: into a list of `primArcs`, or a list of `prototypeArcs`. */
  datatype ArcRef = Own(list: nat, index: nat) | Shared(indexPath: Path, index: nat)

  datatype ArcRow = ArcRow(prim: Prim, arc: ArcRef, arcIndex: nat, introducing: AnyPath)

  predicate Resolves(own: seq<seq<ArcInfo>>, shared: map<Path, seq<ArcInfo>>, arc: ArcRef) {
    match arc
    case Own(list, index) => list < |own| && index < |own[list]|
    case Shared(path, index) => path in shared && index < |shared[path]|
  }

  predicate AllResolve(own: seq<seq<ArcInfo>>, shared: map<Path, seq<ArcInfo>>, rows: seq<ArcRow>) {
    forall k :: 0 <= k < |rows| ==> Resolves(own, shared, rows[k].arc)
  }

  function ArcOf(own: seq<seq<ArcInfo>>, shared: map<Path, seq<ArcInfo>>, arc: ArcRef): ArcInfo
    requires Resolves(own, shared, arc)
  {
    match arc
    case Own(list, index) => own[list][index]
    case Shared(path, index) => shared[path][index]
  }

  /** The rows as they are written while the lists of arcs are these. */
  function Written(own: seq<seq<ArcInfo>>, shared: map<Path, seq<ArcInfo>>, rows: seq<ArcRow>): seq<OutRow>
    requires AllResolve(own, shared, rows)
  {
    seq(|rows|, k requires 0 <= k < |rows| =>
      OutRow(rows[k].prim, ArcOf(own, shared, rows[k].arc), rows[k].arcIndex, rows[k].introducing))
  }

  lemma WrittenSnoc(own: seq<seq<ArcInfo>>, shared: map<Path, seq<ArcInfo>>, rows: seq<ArcRow>, row: ArcRow)
    requires AllResolve(own, shared, rows) && Resolves(own, shared, row.arc)
    ensures AllResolve(own, shared, rows + [row])
    ensures Written(own, shared, rows + [row]) ==
      Written(own, shared, rows) + [OutRow(row.prim, ArcOf(own, shared, row.arc), row.arcIndex, row.introducing)]
  {
  }

  /** UsdCompositionArcsProducer */
  class CompositionArcsProducer {
    ghost var stage: Stage
    var rows: seq<ArcRow>
    var primArcs: seq<seq<ArcInfo>>
    var prototypeArcs: map<Path, seq<ArcInfo>>

    ghost predicate Valid()
      reads this
    {
      && SharesArcs(stage)
      && AllResolve(primArcs, prototypeArcs, rows)
      && (forall p: Prim ::
            p.isInstanceProxy && p.indexPath in prototypeArcs ==> prototypeArcs[p.indexPath] == stage(p))
    }

    /** The rows as they would be written now. */
    ghost function Contents(): seq<OutRow>
      requires Valid()
      reads this
    {
      Written(primArcs, prototypeArcs, rows)
    }

    constructor (ghost stage: Stage)
      requires SharesArcs(stage)
      ensures Valid() && Contents() == [] && this.stage == stage
    {
      this.stage := stage;
      rows, primArcs, prototypeArcs := [], [], map[];
    }

    /** Another stage: forgets the previous one's prototypes. No row may point to them any more. */
    method BeginStage(ghost next: Stage)
      requires SharesArcs(next) && rows == []
      modifies this
      ensures Valid() && Contents() == [] && stage == next
    {
      stage := next;
      prototypeArcs := map[];
    }

    method Clear()
      requires Valid()
      modifies this
      ensures Valid() && Contents() == [] && stage == old(stage)
    {
      rows := [];
      primArcs := [];
    }

    method ComputeArcs(compute: Stage, prim: Prim) returns (arcs: seq<ArcInfo>)
      ensures arcs == compute(prim)
    {
      arcs := compute(prim);
    }

    /** Adds the rows of a prim; every row that is already there keeps denoting its arc. */
    method AddPrim(compute: Stage, prim: Prim)
      requires Valid() && compute == stage
      modifies this
      ensures Valid() && stage == old(stage)
      ensures old(Contents()) <= Contents()
      ensures AreRowsOf(stage, prim, Contents()[|old(Contents())|..])
      ensures AreRowsByArc(stage, prim, Contents()[|old(Contents())|..])
    {
      hide AreRowsByArc;
      ghost var before := Contents();
      if prim.isInstanceProxy {
        ghost var s, t := AddShared(compute, prim);
        assert Contents()[|before|..] == RowsBetween(prim, stage(prim), s, t);
      } else {
        AddOwn(compute, prim);
        assert Contents()[|before|..] == OwnRows(prim, stage(prim));
      }
      RowsByArc(stage, prim, Contents()[|before|..]);
    }

    method AddOwn(compute: Stage, prim: Prim)
      requires Valid() && compute == stage && !prim.isInstanceProxy
      modifies this
      ensures Valid() && stage == old(stage)
      ensures Contents() == old(Contents()) + OwnRows(prim, stage(prim))
    {
      ghost var before := Contents();
      var arcs := ComputeArcs(compute, prim);
      primArcs := primArcs + [arcs];
      assert Contents() == before;
      for i := 0 to |arcs|
        invariant Valid() && stage == old(stage) && primArcs == old(primArcs) + [arcs]
        invariant Contents() == before + OwnRows(prim, arcs)[..i]
      {
        var row := ArcRow(prim, Own(|primArcs| - 1, i), i, arcs[i].introducing);
        WrittenSnoc(primArcs, prototypeArcs, rows, row);
        rows := rows + [row];
      }
    }

    method AddShared(compute: Stage, prim: Prim) returns (ghost s: Path, ghost t: Path)
      requires Valid() && compute == stage && prim.isInstanceProxy
      modifies this
      ensures Valid() && stage == old(stage)
      ensures AreRoots(prim.indexPath, prim.path, s, t)
      ensures Contents() == old(Contents()) + RowsBetween(prim, stage(prim), s, t)
    {
      hide AreRoots, ReplacePrefix;
      ghost var before := Contents();
      if prim.indexPath !in prototypeArcs {
        var computed := ComputeArcs(compute, prim);
        prototypeArcs := prototypeArcs[prim.indexPath := computed];
        assert Contents() == before;
      }
      var arcs := prototypeArcs[prim.indexPath];
      if arcs == [] {
        s, t := RootsExist(prim.indexPath, prim.path);
        return;
      }
      var sourceRoot, primRoot := FindRoots(prim.indexPath, prim.path);
      s, t := sourceRoot, primRoot;
      for i := 0 to |arcs|
        invariant Valid() && stage == old(stage)
        invariant prim.indexPath in prototypeArcs && prototypeArcs[prim.indexPath] == arcs
        invariant Contents() == before + RowsBetween(prim, arcs, sourceRoot, primRoot)[..i]
      {
        var row := ArcRow(prim, Shared(prim.indexPath, i), i, ReplacePrefix(arcs[i].introducing, sourceRoot, primRoot));
        WrittenSnoc(primArcs, prototypeArcs, rows, row);
        rows := rows + [row];
      }
    }
  }
}
