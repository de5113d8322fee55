/** Pushing filters into the scan does not change the query's result, however many threads scan. */
module UsdPushdownTheorems {
  import opened UsdProperties
  import opened UsdPropertiesRows
  import opened UsdPushdown
  import opened UsdRows
  import opened UsdScanModel
  import opened UsdScanTheorems
  import opened UsdScanWalk
  import opened Wrappers

  // ---------------------------------------------------------------- filtering rows

  function Kept(keep: Row -> bool, row: Row): seq<Row> {
    if keep(row) then [row] else []
  }

  function Where(keep: Row -> bool, rows: seq<Row>): seq<Row> {
    if rows == [] then [] else Kept(keep, rows[0]) + Where(keep, rows[1..])
  }

  lemma AssocRows(a: seq<Row>, b: seq<Row>, c: seq<Row>)
    ensures a + b + c == a + (b + c)
  {
  }

  lemma {:induction false} WhereAppend(keep: Row -> bool, a: seq<Row>, b: seq<Row>)
    ensures Where(keep, a + b) == Where(keep, a) + Where(keep, b)
  {
    if a == [] {
      assert a + b == b && [] + Where(keep, b) == Where(keep, b);
    } else {
      var first := Kept(keep, a[0]);
      assert (a + b)[1..] == a[1..] + b;
      assert Where(keep, a + b) == first + Where(keep, a[1..] + b) && Where(keep, a) == first + Where(keep, a[1..]);
      hide Where, Kept;
      WhereAppend(keep, a[1..], b);
      AssocRows(first, Where(keep, a[1..]), Where(keep, b));
    }
  }

  lemma {:induction false} WhereTagged(keep: Row -> bool, rows: seq<Row>, tag: Option<real>)
    ensures Tag(Where(keep, rows), tag) == Keep(ByRow(keep), Tag(rows, tag))
  {
    if rows == [] {
    } else {
      WhereTagged(keep, rows[1..], tag);
      assert Tag(rows, tag)[1..] == Tag(rows[1..], tag);
      assert Tag(rows, tag)[0] == OutRow(rows[0], tag);
    }
  }

  /** Filtering by less first does not matter. */
  lemma {:induction false} KeepKeep(more: Row -> bool, less: Row -> bool, rows: seq<OutRow>)
    requires forall row :: more(row) ==> less(row)
    ensures Keep(ByRow(more), Keep(ByRow(less), rows)) == Keep(ByRow(more), rows)
  {
    if rows == [] {
    } else {
      var first := if ByRow(less)(rows[0]) then [rows[0]] else [];
      KeepKeep(more, less, rows[1..]);
      KeepAppend(ByRow(more), first, Keep(ByRow(less), rows[1..]));
      assert more(rows[0].row) ==> less(rows[0].row);
      if first == [] { KeepNone(ByRow(more), [rows[0]]); }
      KeepAppend(ByRow(more), [rows[0]], rows[1..]);
      assert rows == [rows[0]] + rows[1..];
    }
  }

  predicate NameFiltersHold(filters: seq<Expr>, get: Get, row: Row, meaning: Meaning) {
    forall i :: 0 <= i < |filters| && OnlyNames(filters[i], get, PROPERTY_NAME) ==> Holds(filters[i], get, row, meaning)
  }

  function ByNameFilters(filters: seq<Expr>, get: Get, meaning: Meaning): Row -> bool {
    row => NameFiltersHold(filters, get, row, meaning)
  }

  function ByFilters(filters: seq<Expr>, get: Get, meaning: Meaning): Row -> bool {
    row => AllHold(filters, get, row, meaning)
  }

  // ---------------------------------------------------------------- one prim

  /** The selection is of the names that all filters on names accept. */
  ghost predicate SelectsBy(s: Selection, get: Get, filters: seq<Expr>) {
    forall name :: Selects(s, name) <==>
      forall i :: 0 <= i < |filters| && OnlyNames(filters[i], get, PROPERTY_NAME) ==> Accepts(filters[i], name)
  }

  /** Whether the filters let a property's row through is a matter of its name. */
  lemma KeptByName(filters: seq<Expr>, s: Selection, get: Get, row: Row, name: string, meaning: Meaning)
    requires SelectsBy(s, get, filters) && RowNamed(row, get, PROPERTY_NAME, name)
    ensures NameFiltersHold(filters, get, row, meaning) <==> Selects(s, name)
  {
    forall i | 0 <= i < |filters| && OnlyNames(filters[i], get, PROPERTY_NAME)
      ensures Holds(filters[i], get, row, meaning) <==> Accepts(filters[i], name)
    {
      TrueIffAccepted(filters[i], get, PROPERTY_NAME, row, name, meaning);
    }
  }

  lemma FirstIsFiltered(p: Property, filters: seq<Expr>, s: Selection, get: Get, visit: Visit, settings: Settings,
                        meaning: Meaning)
    requires SelectsBy(s, get, filters)
    ensures var rows := WriteRows(RowsFor(p, settings, true, visit.time, visit.prim), visit, settings, get.columnIds);
            Where(ByNameFilters(filters, get, meaning), rows) == if Selects(s, p.name) then rows else []
  {
    var made := RowsFor(p, settings, true, visit.time, visit.prim);
    var rows := WriteRows(made, visit, settings, get.columnIds);
    if made != [] {
      KeptByName(filters, s, get, rows[0], p.name, meaning);
      assert rows == [rows[0]];
    }
  }

  lemma {:induction false} VisitIsFiltered(properties: seq<Property>, filters: seq<Expr>, s: Selection, get: Get,
                                           visit: Visit, settings: Settings, meaning: Meaning)
    requires SelectsBy(s, get, filters)
    ensures var fetchValues := NeedsValues(get.columnIds);
            WriteRows(MakeRows(Named(s, properties), settings, fetchValues, visit.time, visit.prim), visit, settings,
                      get.columnIds) ==
            Where(ByNameFilters(filters, get, meaning),
                  WriteRows(MakeRows(properties, settings, true, visit.time, visit.prim),
                            visit, settings, get.columnIds))
  {
    hide SelectsBy, NameFiltersHold, WriteRow, NeedsValues;
    if properties == [] {
    } else {
      var fetchValues := NeedsValues(get.columnIds);
      var keep := ByNameFilters(filters, get, meaning);
      var p := properties[0];
      var first := RowsFor(p, settings, true, visit.time, visit.prim);
      var rest := MakeRows(properties[1..], settings, true, visit.time, visit.prim);
      VisitIsFiltered(properties[1..], filters, s, get, visit, settings, meaning);
      SameCells(p, visit, settings, get.columnIds);
      WriteAppend(first, rest, visit, settings, get.columnIds);
      WhereAppend(keep, WriteRows(first, visit, settings, get.columnIds),
                  WriteRows(rest, visit, settings, get.columnIds));
      FirstIsFiltered(p, filters, s, get, visit, settings, meaning);
      var pruned := Named(s, properties[1..]);
      if Selects(s, p.name) {
        assert ([p] + pruned)[1..] == pruned;
        WriteAppend(RowsFor(p, settings, fetchValues, visit.time, visit.prim),
                    MakeRows(pruned, settings, fetchValues, visit.time, visit.prim), visit, settings, get.columnIds);
      } else {
        assert [] + pruned == pruned;
      }
    }
  }

  // ---------------------------------------------------------------- scans

  /** What a scan of usd_properties is given. `composed` is the prim of a file that the scan walks to; `extra` is what
      the scan itself writes to its own columns, for the rows of a file at a time. */
  datatype Query = Query(
    files: seq<File>, ignoreErrors: bool, time: Time, times: seq<real>, settings: Settings,
    composed: (nat, UsdScanModel.Prim) -> UsdProperties.Prim,
    extra: (nat, Time, nat) -> Value)

  function VisitTo(q: Query, f: nat, time: Time, prim: UsdScanModel.Prim): Visit {
    Visit(q.composed(f, prim), time, (column: nat) => q.extra(f, time, column))
  }

  function ScanWith(q: Query, s: Selection, fetchValues: bool, columnIds: seq<nat>): Scan {
    Scan(q.files, false, q.ignoreErrors, q.time, q.times,
         (f: nat, time: Time, prim: UsdScanModel.Prim) =>
           var visit := VisitTo(q, f, time, prim);
           WriteRows(MakeRows(Named(s, visit.prim.properties), q.settings, fetchValues, time, visit.prim),
                     visit, q.settings,
                     columnIds),
         (f: nat) => [])
  }

  /** The scan: it reads the selected properties, and their values if it must write them. */
  function PrunedScan(q: Query, s: Selection, columnIds: seq<nat>): Scan {
    ScanWith(q, s, NeedsValues(columnIds), columnIds)
  }

  /** The scan that reads all of all properties. */
  function FullScan(q: Query, columnIds: seq<nat>): Scan {
    ScanWith(q, Selection(false, []), true, columnIds)
  }

  lemma PrunedKeeps(q: Query, filters: seq<Expr>, s: Selection, get: Get, meaning: Meaning)
    requires SelectsBy(s, get, filters)
    ensures Keeps(ByNameFilters(filters, get, meaning), PrunedScan(q, s, get.columnIds), FullScan(q, get.columnIds))
  {
    hide Tag, Keep, SelectsBy, NameFiltersHold, WriteRows, MakeRows, Named, Where, NeedsValues;
    var keep := ByNameFilters(filters, get, meaning);
    var fewer, more := PrunedScan(q, s, get.columnIds), FullScan(q, get.columnIds);
    forall f: nat, time: Time, prim: UsdScanModel.Prim, tag: Option<real>
      ensures Tag(fewer.primRows(f, time, prim), tag) == Keep(ByRow(keep), Tag(more.primRows(f, time, prim), tag))
    {
      var visit := VisitTo(q, f, time, prim);
      EverythingNamed(Selection(false, []), visit.prim.properties);
      VisitIsFiltered(visit.prim.properties, filters, s, get, visit, q.settings, meaning);
      WhereTagged(keep, more.primRows(f, time, prim), tag);
    }
  }

  /** The pruned scan walks to exactly the rows on which all filters on names are TRUE: the query's other filters
      never see another property's row. */
  lemma ScanIsFiltered(q: Query, filters: seq<Expr>, s: Selection, get: Get, meaning: Meaning)
    requires SelectsBy(s, get, filters)
    ensures Sequential(PrunedScan(q, s, get.columnIds)) ==
            Keep(ByRow(ByNameFilters(filters, get, meaning)), Sequential(FullScan(q, get.columnIds)))
  {
    hide *;
    PrunedKeeps(q, filters, s, get, meaning);
    KeepSequential(ByNameFilters(filters, get, meaning), PrunedScan(q, s, get.columnIds), FullScan(q, get.columnIds));
  }

  // ---------------------------------------------------------------- bindings

  /** The column of the scan that the expression refers to. */
  function ColumnOf(e: Expr, get: Get): Option<nat>
    requires e.ColumnRef?
  {
    if e.table == get.tableIndex && e.index < |get.columnIds| then Some(get.columnIds[e.index]) else None
  }

  /** The same expression, bound to another list of columns of the scan. */
  predicate Rebound(e: Expr, get: Get, to: Expr, toGet: Get) {
    match e
    case ColumnRef(_, _) => to.ColumnRef? && ColumnOf(e, get) == ColumnOf(to, toGet)
    case VarcharConstant(_) => to == e
    case OtherConstant(_) => to == e
    case Equal(comparison, left, right) =>
      to.Equal? && to.comparison == comparison &&
      Rebound(left, get, to.left, toGet) && Rebound(right, get, to.right, toGet)
    case In(operator_, list) =>
      to.In? && to.operator_ == operator_ && |to.list| == |list| &&
      forall i :: 0 <= i < |list| ==> Rebound(list[i], get, to.list[i], toGet)
    case Or(conjunction, children) =>
      to.Or? && to.conjunction == conjunction && |to.children| == |children| &&
      forall i :: 0 <= i < |children| ==> Rebound(children[i], get, to.children[i], toGet)
    case Other(_) => to.Other?
  }

  /** Which names a filter accepts, if any, does not depend on the binding. */
  lemma {:induction false} ReboundAccepts(e: Expr, get: Get, to: Expr, toGet: Get, name: string)
    requires Rebound(e, get, to, toGet)
    ensures OnlyNames(e, get, PROPERTY_NAME) <==> OnlyNames(to, toGet, PROPERTY_NAME)
    ensures Accepts(e, name) <==> Accepts(to, name)
    decreases e
  {
    match e
    case Or(_, children) =>
      forall i | 0 <= i < |children|
        ensures OnlyNames(children[i], get, PROPERTY_NAME) <==> OnlyNames(to.children[i], toGet, PROPERTY_NAME)
        ensures Accepts(children[i], name) <==> Accepts(to.children[i], name)
      {
        ReboundAccepts(children[i], get, to.children[i], toGet, name);
      }
    case In(_, list) =>
      forall i | 0 <= i < |list|
        ensures list[i].VarcharConstant? <==> to.list[i].VarcharConstant?
        ensures IsName(list[i], name) <==> IsName(to.list[i], name)
      {
        assert Rebound(list[i], get, to.list[i], toGet);
      }
    case _ =>
  }

  predicate AllRebound(filters: seq<Expr>, get: Get, to: seq<Expr>, toGet: Get) {
    |to| == |filters| && forall i :: 0 <= i < |filters| ==> Rebound(filters[i], get, to[i], toGet)
  }

  // ---------------------------------------------------------------- any number of calls

  /** A pushdown call: the columns of the scan at that time, the filters, and the filters as the final plan has them. */
  datatype Call = Call(get: Get, filters: seq<Expr>, bound: seq<Expr>)

  /** The options before and after each of a number of pushdown calls on a new scan. */
  ghost predicate PushRun(calls: seq<Call>, get: Get, states: seq<Selection>) {
    && |states| == |calls| + 1
    && states[0] == Selection(false, [])
    && forall i :: 0 <= i < |calls| ==>
         AllRebound(calls[i].filters, calls[i].get, calls[i].bound, get) &&
         Pushed(states[i], calls[i].get, PROPERTY_NAME, calls[i].filters, states[i + 1])
  }

  function BoundFilters(calls: seq<Call>): seq<Expr> {
    if calls == [] then [] else BoundFilters(calls[..|calls| - 1]) + calls[|calls| - 1].bound
  }

  lemma PushedSelects(s: Selection, t: Selection, call: Call, get: Get, before: seq<Expr>)
    requires SelectsBy(s, get, before) && AllRebound(call.filters, call.get, call.bound, get)
    requires Pushed(s, call.get, PROPERTY_NAME, call.filters, t)
    ensures SelectsBy(t, get, before + call.bound)
  {
    hide Selects, OnlyNames, Accepts, Rebound;
    var all := before + call.bound;
    assert forall i :: 0 <= i < |before| ==> all[i] == before[i];
    assert forall i :: 0 <= i < |call.bound| ==> all[|before| + i] == call.bound[i];
    forall name ensures Selects(t, name) <==>
      forall i :: 0 <= i < |all| && OnlyNames(all[i], get, PROPERTY_NAME) ==> Accepts(all[i], name)
    {
      forall i | 0 <= i < |call.bound|
        ensures OnlyNames(call.filters[i], call.get, PROPERTY_NAME) <==> OnlyNames(call.bound[i], get, PROPERTY_NAME)
        ensures Accepts(call.filters[i], name) <==> Accepts(call.bound[i], name)
      {
        ReboundAccepts(call.filters[i], call.get, call.bound[i], get, name);
      }
    }
  }

  lemma {:induction false} RunSelects(calls: seq<Call>, get: Get, states: seq<Selection>)
    requires PushRun(calls, get, states)
    ensures SelectsBy(states[|calls|], get, BoundFilters(calls))
  {
    hide Pushed, AllRebound;
    if calls == [] {
    } else {
      var n := |calls| - 1;
      RunSelects(calls[..n], get, states[..n + 1]);
      PushedSelects(states[n], states[n + 1], calls[n], get, BoundFilters(calls[..n]));
    }
  }

  lemma {:induction false} BoundMembers(calls: seq<Call>, e: Expr)
    requires e in BoundFilters(calls)
    ensures exists i :: 0 <= i < |calls| && e in calls[i].bound
  {
    if calls != [] && e !in calls[|calls| - 1].bound {
      BoundMembers(calls[..|calls| - 1], e);
    }
  }

  lemma PlanIsStricter(calls: seq<Call>, plan: seq<Expr>, get: Get, meaning: Meaning, row: Row)
    requires forall i, j :: 0 <= i < |calls| && 0 <= j < |calls[i].bound| ==> calls[i].bound[j] in plan
    requires AllHold(plan, get, row, meaning)
    ensures NameFiltersHold(BoundFilters(calls), get, row, meaning)
  {
    var filters := BoundFilters(calls);
    forall i | 0 <= i < |filters| && OnlyNames(filters[i], get, PROPERTY_NAME)
      ensures Holds(filters[i], get, row, meaning) {
      BoundMembers(calls, filters[i]);
    }
  }

  /** However often filters are pushed down, and to whatever columns they are bound then: as long as they stay in the
      plan, the plan's filters leave the same rows, in the same order, as on a scan that reads everything. */
  lemma PushdownKeepsTheWalk(q: Query, calls: seq<Call>, states: seq<Selection>, plan: seq<Expr>, get: Get,
                             meaning: Meaning)
    requires PushRun(calls, get, states)
    requires forall i, j :: 0 <= i < |calls| && 0 <= j < |calls[i].bound| ==> calls[i].bound[j] in plan
    ensures Keep(ByRow(ByFilters(plan, get, meaning)), Sequential(PrunedScan(q, states[|calls|], get.columnIds))) ==
            Keep(ByRow(ByFilters(plan, get, meaning)), Sequential(FullScan(q, get.columnIds)))
  {
    hide Keep, Sequential, ScanWith, AllHold, NameFiltersHold, NeedsValues, SelectsBy;
    RunSelects(calls, get, states);
    ScanIsFiltered(q, BoundFilters(calls), states[|calls|], get, meaning);
    forall row | ByFilters(plan, get, meaning)(row) ensures ByNameFilters(BoundFilters(calls), get, meaning)(row) {
      PlanIsStricter(calls, plan, get, meaning, row);
    }
    KeepKeep(ByFilters(plan, get, meaning), ByNameFilters(BoundFilters(calls), get, meaning),
             Sequential(FullScan(q, get.columnIds)));
  }

  lemma SameFailures(q: Query, s: Selection, columnIds: seq<nat>)
    ensures AnyFails(PrunedScan(q, s, columnIds)) <==> AnyFails(FullScan(q, columnIds))
  {
    var a, b := PrunedScan(q, s, columnIds), FullScan(q, columnIds);
    assert forall f :: 0 <= f < |q.files| ==> (Fails(a, q.files[f]) <==> Fails(b, q.files[f]));
  }

  /** The same for the parallel scan: whatever the number of threads and their schedule, what the plan's filters leave
      of the pruned scan's rows is what they leave of the walk that reads everything; and it fails if and only if that
      would. */
  lemma PushdownKeepsTheResult(q: Query, calls: seq<Call>, states: seq<Selection>, plan: seq<Expr>, get: Get,
                               meaning: Meaning, threads: nat, pick: System -> nat)
    requires PushRun(calls, get, states) && threads > 0
    requires forall i, j :: 0 <= i < |calls| && 0 <= j < |calls[i].bound| ==> calls[i].bound[j] in plan
    ensures var scan := PrunedScan(q, states[|calls|], get.columnIds);
            var end := Drive(scan, Begin(scan, threads), pick);
            if AnyFails(FullScan(q, get.columnIds)) then ScanFailed(end)
            else Keep(ByRow(ByFilters(plan, get, meaning)), Assembled(end.log, end.g.nextBatch)) ==
                 Keep(ByRow(ByFilters(plan, get, meaning)), Sequential(FullScan(q, get.columnIds)))
  {
    hide Keep, Sequential, Drive, Begin, Assembled, AnyFails, ScanFailed, AllHold, Pushed, AllRebound;
    var scan := PrunedScan(q, states[|calls|], get.columnIds);
    EveryRunIsSequential(scan, threads, pick);
    SameFailures(q, states[|calls|], get.columnIds);
    PushdownKeepsTheWalk(q, calls, states, plan, get, meaning);
  }
}
