/** Filters on the property name column, in SQL's three-valued logic, and their pushdown into the options of a scan. */
module UsdPushdown {
  import opened Wrappers
  import opened Ordering
  import opened UsdRows

  // ---------------------------------------------------------------- filters

  /** LogicalGet: the table index that the scan's columns are bound to, and the columns that it reads, in the order of
      the values of its rows. */
  datatype Get = Get(tableIndex: nat, columnIds: seq<nat>)

  /** A bound expression. DuckDB gives an expression its type and its class separately: `comparison`, `operator_` and
      `conjunction` tell whether the class is the one that the type usually comes with. */
  datatype Expr =
    | ColumnRef(table: nat, index: nat)
    | VarcharConstant(text: Option<string>)     // None is NULL
    | OtherConstant(value: Value)
    | Equal(comparison: bool, left: Expr, right: Expr)
    | In(operator_: bool, list: seq<Expr>)
    | Or(conjunction: bool, children: seq<Expr>)
    | Other(id: nat)

  /** What the expressions that this model does not look into evaluate to. */
  type Meaning = (Expr, Row) -> Value

  function Equals(a: Value, b: Value): Value {
    if a.Null? || b.Null? then Null else Bool(a == b)
  }

  /** OR of any number of values: TRUE wins over NULL, NULL over FALSE. */
  function OrOf(values: seq<Value>): Value {
    if Bool(true) in values then Bool(true) else if Null in values then Null else Bool(false)
  }

  function Eval(e: Expr, get: Get, row: Row, meaning: Meaning): Value {
    match e
    case ColumnRef(table, index) =>
      if table == get.tableIndex && index < |row| then row[index] else meaning(e, row)
    case VarcharConstant(text) => if text.Some? then Varchar(text.value) else Null
    case OtherConstant(value) => value
    case Equal(comparison, left, right) =>
      if comparison then Equals(Eval(left, get, row, meaning), Eval(right, get, row, meaning)) else meaning(e, row)
    case In(operator_, list) =>
      if operator_ && list != [] then
        var x := Eval(list[0], get, row, meaning);
        OrOf(seq(|list| - 1, i requires 0 <= i < |list| - 1 => Equals(x, Eval(list[i + 1], get, row, meaning))))
      else meaning(e, row)
    case Or(conjunction, children) =>
      if conjunction then
        OrOf(seq(|children|, i requires 0 <= i < |children| => Eval(children[i], get, row, meaning)))
      else meaning(e, row)
    case Other(_) => meaning(e, row)
  }

  predicate Holds(e: Expr, get: Get, row: Row, meaning: Meaning) {
    Eval(e, get, row, meaning) == Bool(true)
  }

  predicate AllHold(filters: seq<Expr>, get: Get, row: Row, meaning: Meaning) {
    forall i :: 0 <= i < |filters| ==> Holds(filters[i], get, row, meaning)
  }

  // ---------------------------------------------------------------- the names that a filter accepts

  predicate IsScanColumn(e: Expr, get: Get, column: nat) {
    e.ColumnRef? && e.table == get.tableIndex && e.index < |get.columnIds| && get.columnIds[e.index] == column
  }

  /** Whether the filter only compares the column with constants. */
  predicate OnlyNames(e: Expr, get: Get, column: nat) {
    match e
    case Equal(comparison, left, right) =>
      comparison &&
      ((IsScanColumn(left, get, column) && right.VarcharConstant?) ||
       (IsScanColumn(right, get, column) && left.VarcharConstant?))
    case In(operator_, list) =>
      operator_ && list != [] && IsScanColumn(list[0], get, column) &&
      forall i :: 1 <= i < |list| ==> list[i].VarcharConstant?
    case Or(conjunction, children) =>
      conjunction && forall i :: 0 <= i < |children| ==> OnlyNames(children[i], get, column)
    case _ => false
  }

  predicate IsName(e: Expr, name: string) {
    e == VarcharConstant(Some(name))
  }

  predicate Accepts(e: Expr, name: string) {
    match e
    case Equal(_, left, right) => IsName(left, name) || IsName(right, name)
    case In(_, list) => exists i :: 1 <= i < |list| && IsName(list[i], name)
    case Or(_, children) => exists i :: 0 <= i < |children| && Accepts(children[i], name)
    case _ => false
  }

  /** A row of the property `name`: the columns that are the property name column hold it. */
  predicate RowNamed(row: Row, get: Get, column: nat, name: string) {
    |row| == |get.columnIds| && forall i :: 0 <= i < |row| && get.columnIds[i] == column ==> row[i] == Varchar(name)
  }

  /** On a row of the property `name`, such a filter is TRUE (neither FALSE nor NULL) if and only if it accepts the
      name: whatever the row's other columns are. */
  lemma {:induction false} TrueIffAccepted(e: Expr, get: Get, column: nat, row: Row, name: string, meaning: Meaning)
    requires OnlyNames(e, get, column) && RowNamed(row, get, column, name)
    ensures Holds(e, get, row, meaning) <==> Accepts(e, name)
    decreases e
  {
    match e
    case Equal(_, left, right) =>
      var x, y := Eval(left, get, row, meaning), Eval(right, get, row, meaning);
      assert Eval(e, get, row, meaning) == Equals(x, y);
      assert IsScanColumn(left, get, column) ==> x == Varchar(name);
      assert IsScanColumn(right, get, column) ==> y == Varchar(name);
    case In(_, list) =>
      var values := seq(|list| - 1, i requires 0 <= i < |list| - 1 =>
        Equals(Varchar(name), Eval(list[i + 1], get, row, meaning)));
      assert Eval(e, get, row, meaning) == OrOf(values);
      forall i | 1 <= i < |list| ensures values[i - 1] == Bool(true) <==> IsName(list[i], name) {
      }
      if Accepts(e, name) {
        var i :| 1 <= i < |list| && IsName(list[i], name);
        assert values[i - 1] in values;
      }
    case Or(_, children) =>
      var values := seq(|children|, i requires 0 <= i < |children| => Eval(children[i], get, row, meaning));
      assert Eval(e, get, row, meaning) == OrOf(values);
      forall i | 0 <= i < |children| ensures values[i] == Bool(true) <==> Accepts(children[i], name) {
        TrueIffAccepted(children[i], get, column, row, name, meaning);
      }
      if Accepts(e, name) {
        var i :| 0 <= i < |children| && Accepts(children[i], name);
        assert values[i] in values;
      }
  }

  // ---------------------------------------------------------------- collecting them

  method AddConstant(e: Expr, names: seq<string>) returns (added: bool, all: seq<string>)
    ensures added <==> e.VarcharConstant?
    ensures names <= all && (!added ==> all == names)
    ensures added ==> forall name :: name in all[|names|..] <==> IsName(e, name)
  {
    if !e.VarcharConstant? {
      return false, names;
    }
    if e.text.Some? {
      all := names + [e.text.value];
      assert all[|names|..] == [e.text.value];
      return true, all;
    }
    return true, names;
  }

  /** Adds the names that the filter accepts to `names`, if it only compares the column with constants. If it does not,
      some names may have been added nevertheless. */
  method CollectPropertyNames(filter: Expr, get: Get, column: nat, names: seq<string>)
    returns (collected: bool, all: seq<string>)
    ensures collected <==> OnlyNames(filter, get, column)
    ensures names <= all
    ensures collected ==> forall name :: name in all[|names|..] <==> Accepts(filter, name)
    decreases filter
  {
    match filter
    case Equal(comparison, left, right) =>
      if !comparison {
        return false, names;
      }
      if IsScanColumn(left, get, column) {
        collected, all := AddConstant(right, names);
        return;
      }
      if IsScanColumn(right, get, column) {
        collected, all := AddConstant(left, names);
        return;
      }
      return false, names;
    case In(operator_, list) =>
      if !operator_ || |list| == 0 || !IsScanColumn(list[0], get, column) {
        return false, names;
      }
      all := names;
      for i := 1 to |list|
        invariant names <= all
        invariant forall j :: 1 <= j < i ==> list[j].VarcharConstant?
        invariant forall name :: name in all[|names|..] <==> exists j :: 1 <= j < i && IsName(list[j], name)
      {
        ghost var before := all;
        var added;
        added, all := AddConstant(list[i], all);
        if !added {
          return false, all;
        }
        assert all[|names|..] == before[|names|..] + all[|before|..];
      }
      collected := true;
    case Or(conjunction, children) =>
      if !conjunction {
        return false, names;
      }
      all := names;
      for i := 0 to |children|
        invariant names <= all
        invariant forall j :: 0 <= j < i ==> OnlyNames(children[j], get, column)
        invariant forall name :: name in all[|names|..] <==> exists j :: 0 <= j < i && Accepts(children[j], name)
      {
        ghost var before := all;
        var child;
        child, all := CollectPropertyNames(children[i], get, column, all);
        if !child {
          return false, all;
        }
        assert all[|names|..] == before[|names|..] + all[|before|..];
      }
      collected := true;
    case _ => return false, names;
  }

  // ---------------------------------------------------------------- the scan's options

  /** The options that the pushdown sets. */
  datatype Selection = Selection(filterPropertyNames: bool, propertyNames: seq<string>)

  /** All options of a scan; `others` has those that the pushdown leaves alone. */
  datatype Options = Options(others: seq<Value>, selection: Selection)

  predicate Selects(s: Selection, name: string) {
    s.filterPropertyNames ==> name in s.propertyNames
  }

  /** Options are compared field by field, so the same selection should be spelled the same. */
  predicate Canonical(s: Selection) {
    if s.filterPropertyNames then Ascending(Less, s.propertyNames) else s.propertyNames == []
  }

  /** What pushing `filters` makes of the options `s`: filters that do not only compare names do nothing, the names are
      those that `s` and all others accept. */
  ghost predicate Pushed(s: Selection, get: Get, column: nat, filters: seq<Expr>, t: Selection) {
    && Canonical(t)
    && (t.filterPropertyNames <==>
          s.filterPropertyNames || exists i :: 0 <= i < |filters| && OnlyNames(filters[i], get, column))
    && forall name :: Selects(t, name) <==>
          Selects(s, name) && forall i ::
            0 <= i < |filters| && OnlyNames(filters[i], get, column) ==> Accepts(filters[i], name)
  }

  lemma SameSelection(s: Selection, t: Selection)
    requires Canonical(s) && Canonical(t)
    requires s.filterPropertyNames == t.filterPropertyNames
    requires forall name :: Selects(s, name) <==> Selects(t, name)
    ensures s == t
  {
    if s.filterPropertyNames {
      LessIsOrder();
      forall name ensures name in s.propertyNames <==> name in t.propertyNames {
        assert Selects(s, name) <==> Selects(t, name);
      }
      SameElementsSameList(Less, s.propertyNames, t.propertyNames);
    }
  }

  /** The same filters, in whatever order, however often, give equal options if and only if the other options are equal:
      DuckDB may share the results of such scans, and of no others. */
  lemma OrderDoesNotMatter(s: Selection, get: Get, column: nat, a: seq<Expr>, t: Selection, b: seq<Expr>, u: Selection,
                           others: seq<Value>, others': seq<Value>)
    requires Pushed(s, get, column, a, t) && Pushed(s, get, column, b, u)
    requires forall e :: e in a <==> e in b
    ensures Options(others, t) == Options(others', u) <==> others == others'
  {
    assert forall i :: 0 <= i < |a| ==> a[i] in b;
    assert forall i :: 0 <= i < |b| ==> b[i] in a;
    SameSelection(t, u);
  }

  lemma UniqueSorted(names: seq<string>)
    ensures Ascending(Less, Unique(Sort(Less, names)))
    ensures forall name :: name in Unique(Sort(Less, names)) <==> name in names
  {
    LessIsOrder();
    SortSorts(Less, names);
    SortMembers(Less, names);
    UniqueAscends(Less, Sort(Less, names));
  }

  /** Two calls push what one call with all the filters would. */
  lemma PushedConcat(s: Selection, get: Get, column: nat, a: seq<Expr>, t: Selection, b: seq<Expr>, u: Selection)
    requires Pushed(s, get, column, a, t) && Pushed(t, get, column, b, u)
    ensures Pushed(s, get, column, a + b, u)
  {
    var all := a + b;
    assert forall i :: 0 <= i < |a| ==> a[i] == all[i];
    assert forall i :: 0 <= i < |b| ==> b[i] == all[|a| + i];
    forall name ensures Selects(u, name) <==>
      Selects(s, name) && forall i :: 0 <= i < |all| && OnlyNames(all[i], get, column) ==> Accepts(all[i], name)
    {
      assert Selects(u, name) <==>
        Selects(t, name) && forall i :: 0 <= i < |b| && OnlyNames(b[i], get, column) ==> Accepts(b[i], name);
      assert Selects(t, name) <==>
        Selects(s, name) && forall i :: 0 <= i < |a| && OnlyNames(a[i], get, column) ==> Accepts(a[i], name);
    }
  }

  lemma PushedNext(s: Selection, get: Get, column: nat, filters: seq<Expr>, i: nat, t: Selection, u: Selection)
    requires i < |filters| && Pushed(s, get, column, filters[..i], t) && Pushed(t, get, column, [filters[i]], u)
    ensures Pushed(s, get, column, filters[..i + 1], u)
  {
    PushedConcat(s, get, column, filters[..i], t, [filters[i]], u);
    assert filters[..i + 1] == filters[..i] + [filters[i]];
  }

  // ---------------------------------------------------------------- filters that are pushed

  /** `name = 'a'` or `'a' = name`, `name IN ('a', 'b')`, or an OR of such; a constant can be NULL. */
  datatype NameTest =
    | Is(name: Option<string>, columnFirst: bool)
    | IsOneOf(names: seq<Option<string>>)
    | AnyOf(tests: seq<NameTest>)

  function Spelled(test: NameTest, column: Expr): Expr {
    match test
    case Is(name, columnFirst) =>
      if columnFirst then Equal(true, column, VarcharConstant(name)) else Equal(true, VarcharConstant(name), column)
    case IsOneOf(names) =>
      In(true, [column] + seq(|names|, i requires 0 <= i < |names| => VarcharConstant(names[i])))
    case AnyOf(tests) => Or(true, seq(|tests|, i requires 0 <= i < |tests| => Spelled(tests[i], column)))
  }

  predicate Passes(test: NameTest, name: string) {
    match test
    case Is(text, _) => text == Some(name)
    case IsOneOf(names) => Some(name) in names
    case AnyOf(tests) => exists i :: 0 <= i < |tests| && Passes(tests[i], name)
  }

  lemma {:induction false} SpelledIsCollected(test: NameTest, get: Get, column: nat, e: Expr, name: string)
    requires IsScanColumn(e, get, column)
    ensures OnlyNames(Spelled(test, e), get, column)
    ensures Accepts(Spelled(test, e), name) <==> Passes(test, name)
    decreases test
  {
    match test
    case Is(_, _) =>
    case IsOneOf(names) =>
      var list := Spelled(test, e).list;
      if Passes(test, name) {
        var i :| 0 <= i < |names| && names[i] == Some(name);
        assert IsName(list[i + 1], name);
      }
    case AnyOf(tests) =>
      var children := Spelled(test, e).children;
      forall i | 0 <= i < |tests|
        ensures OnlyNames(children[i], get, column) && (Accepts(children[i], name) <==> Passes(tests[i], name))
      {
        SpelledIsCollected(tests[i], get, column, e, name);
      }
      assert Accepts(Spelled(test, e), name) <==> exists i :: 0 <= i < |tests| && Accepts(children[i], name);
  }

  /** Every such filter ends up in the options: a scan that selected all names selects those that pass it. */
  lemma NameFilterIsPushed(test: NameTest, get: Get, column: nat, index: nat, t: Selection)
    requires index < |get.columnIds| && get.columnIds[index] == column
    requires Pushed(Selection(false, []), get, column, [Spelled(test, ColumnRef(get.tableIndex, index))], t)
    ensures t.filterPropertyNames && forall name :: name in t.propertyNames <==> Passes(test, name)
  {
    hide OnlyNames, Accepts, Passes, Spelled, Canonical;
    var e := ColumnRef(get.tableIndex, index);
    var filters := [Spelled(test, e)];
    assert filters[0] == Spelled(test, e);
    SpelledIsCollected(test, get, column, e, "");
    forall name ensures name in t.propertyNames <==> Passes(test, name) {
      SpelledIsCollected(test, get, column, e, name);
      assert Selects(t, name) <==> Accepts(filters[0], name);
    }
  }

  // ---------------------------------------------------------------- the options

  class ScanOptions {
    var filterPropertyNames: bool
    var propertyNames: seq<string>
    const others: seq<Value>

    constructor (others: seq<Value>)
      ensures Tie() == Options(others, Selection(false, []))
    {
      this.others := others;
      filterPropertyNames := false;
      propertyNames := [];
    }

    function Get(): Selection
      reads this
    {
      Selection(filterPropertyNames, propertyNames)
    }

    /** UsdScanOptions::Tie: what options are compared by. */
    function Tie(): Options
      reads this
    {
      Options(others, Get())
    }

    /** UsdScanPushdownComplexFilter */
    method PushdownComplexFilter(get: Get, column: nat, filters: seq<Expr>)
      requires Canonical(Get())
      modifies this
      ensures Pushed(old(Get()), get, column, filters, Get())
    {
      for i := 0 to |filters|
        invariant Pushed(old(Get()), get, column, filters[..i], Get())
      {
        ghost var before := Get();
        PushOne(get, column, filters[i]);
        PushedNext(old(Get()), get, column, filters, i, before, Get());
      }
      assert filters[..|filters|] == filters;
    }

    /** Those of the names that earlier filters accepted, too. */
    method Accepted(names: seq<string>) returns (accepted: seq<string>)
      ensures forall name :: name in accepted <==> name in names && name in propertyNames
    {
      accepted := [];
      for i := 0 to |names|
        invariant forall name :: name in accepted <==> name in names[..i] && name in propertyNames
      {
        if names[i] in propertyNames {
          accepted := accepted + [names[i]];
        }
      }
    }

    /** One turn of its loop. */
    method PushOne(get: Get, column: nat, filter: Expr)
      requires Canonical(Get())
      modifies this
      ensures Pushed(old(Get()), get, column, [filter], Get())
      ensures !OnlyNames(filter, get, column) ==> Get() == old(Get())
    {
      var collected, names := CollectPropertyNames(filter, get, column, []);
      assert [filter][0] == filter;
      if !collected {
        return;
      }
      if filterPropertyNames {
        names := Accepted(names);
      }
      UniqueSorted(names);
      hide Sort, Unique, Ascending, Accepts, OnlyNames;
      names := Sort(Less, names);
      names := Unique(names);
      filterPropertyNames := true;
      propertyNames := names;
      assert forall name :: name in names <==> Accepts(filter, name) && Selects(old(Get()), name);
    }
  }

  /** Options whose names come from the pushdown are equal exactly if they select the same properties, and the rest is
      the same. */
  lemma EqualExactlyWhen(a: ScanOptions, b: ScanOptions)
    requires Canonical(a.Get()) && Canonical(b.Get())
    ensures a.Tie() == b.Tie() <==>
            && a.others == b.others && a.filterPropertyNames == b.filterPropertyNames
            && forall name :: name in a.propertyNames <==> name in b.propertyNames
  {
    hide Ascending;
    if
      && a.filterPropertyNames && b.filterPropertyNames
      && forall name :: name in a.propertyNames <==> name in b.propertyNames
    {
      SameSelection(a.Get(), b.Get());
    }
  }
}
