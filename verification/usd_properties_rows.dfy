/** usd_properties' rows, and what is written of them. */
module UsdPropertiesRows {
  import opened Wrappers
  import opened Ordering
  import opened UsdPushdown
  import opened UsdProperties
  import opened UsdRows

  const PRIM_PATH: nat := 0
  const PROPERTY_NAME: nat := 1
  const PROPERTY_KIND: nat := 2
  const TYPE_NAME: nat := 3
  const IS_ARRAY: nat := 4
  const IS_CUSTOM: nat := 5
  const IS_AUTHORED: nat := 6
  const VARIABILITY: nat := 7
  const TIME_SAMPLE_COUNT: nat := 8
  const ARRAY_LENGTH: nat := 9
  const VALUE: nat := 10

  /** Whether a column is read that is written from values. */
  predicate NeedsValues(columnIds: seq<nat>) {
    VALUE in columnIds || ARRAY_LENGTH in columnIds
  }

  datatype PropertyRow = PropertyRow(prim: Prim, property: Property, isAttribute: bool, value: VtValue)

  datatype Settings = Settings(authoredOnly: bool, maxArrayLength: nat)

  function RowsFor(p: Property, settings: Settings, fetchValues: bool, time: Time, prim: Prim): seq<PropertyRow> {
    if settings.authoredOnly && !p.isAuthored then []
    else [PropertyRow(prim, p, p.isAttribute, if fetchValues then p.values(time) else NoValue)]
  }

  /** A row for each of the properties. */
  function MakeRows(properties: seq<Property>, settings: Settings, fetchValues: bool, time: Time,
                    prim: Prim): seq<PropertyRow> {
    if properties == [] then []
    else RowsFor(properties[0], settings, fetchValues, time, prim) +
         MakeRows(properties[1..], settings, fetchValues, time, prim)
  }

  lemma {:induction false} MakeRowsSnoc(properties: seq<Property>, p: Property, settings: Settings,
                                        fetchValues: bool, time: Time, prim: Prim)
    ensures MakeRows(properties + [p], settings, fetchValues, time, prim) ==
      MakeRows(properties, settings, fetchValues, time, prim) + RowsFor(p, settings, fetchValues, time, prim)
  {
    if properties == [] {
    } else {
      MakeRowsSnoc(properties[1..], p, settings, fetchValues, time, prim);
      assert (properties + [p])[1..] == properties[1..] + [p];
    }
  }

  /** The property gets a row: it has a selected name, and is authored unless others are asked for too. */
  predicate HasRow(selection: Selection, settings: Settings, p: Property) {
    (selection.filterPropertyNames ==> p.name in selection.propertyNames) && (settings.authoredOnly ==> p.isAuthored)
  }

  /** `rows` are one for each property of the prim that gets one, by name, each with the property's own kind and (if
      it is fetched) its value at the time. */
  ghost predicate AreRowsOf(rows: seq<PropertyRow>, selection: Selection, naming: Naming, settings: Settings,
                            fetchValues: bool, time: Time, prim: Prim) {
    && (forall row :: row in rows <==>
          && row.property in prim.properties && HasRow(selection, settings, row.property)
          && row.prim == prim && row.isAttribute == row.property.isAttribute
          && row.value == if fetchValues then row.property.values(time) else NoValue)
    && (forall j, k :: 0 <= j < k < |rows| ==> naming.lt(rows[j].property.name, rows[k].property.name))
  }

  lemma {:induction false} RowMembers(properties: seq<Property>, settings: Settings, fetchValues: bool, time: Time,
                                      prim: Prim, row: PropertyRow)
    ensures row in MakeRows(properties, settings, fetchValues, time, prim) <==>
            && row.property in properties && (settings.authoredOnly ==> row.property.isAuthored)
            && row.prim == prim && row.isAttribute == row.property.isAttribute
            && row.value == if fetchValues then row.property.values(time) else NoValue
  {
    if properties == [] {
    } else {
      RowMembers(properties[1..], settings, fetchValues, time, prim, row);
      assert properties == [properties[0]] + properties[1..];
    }
  }

  lemma {:induction false} RowsAscend(properties: seq<Property>, settings: Settings, fetchValues: bool, time: Time,
                                      prim: Prim, lt: (Property, Property) -> bool)
    requires Ascending(lt, properties)
    ensures var rows := MakeRows(properties, settings, fetchValues, time, prim);
            forall j, k :: 0 <= j < k < |rows| ==> lt(rows[j].property, rows[k].property)
  {
    if properties == [] {
    } else {
      RowsAscend(properties[1..], settings, fetchValues, time, prim, lt);
      var rest := MakeRows(properties[1..], settings, fetchValues, time, prim);
      forall k | 0 <= k < |rest| ensures lt(properties[0], rest[k].property) {
        RowMembers(properties[1..], settings, fetchValues, time, prim, rest[k]);
        assert rest[k] in rest;
        var i :| 0 <= i < |properties[1..]| && properties[1..][i] == rest[k].property;
        assert properties[i + 1] == rest[k].property;
      }
    }
  }

  lemma RowsAreRight(selection: Selection, naming: Naming, settings: Settings, fetchValues: bool, time: Time,
                     prim: Prim)
    requires TotalOrder(naming.lt) && WellNamed(naming, prim)
    ensures AreRowsOf(MakeRows(Named(selection, prim.properties), settings, fetchValues, time, prim), selection, naming,
                      settings, fetchValues, time, prim)
  {
    hide MakeRows, Named;
    var lt := (p, q) => NameLess(naming, p, q);
    var named := Named(selection, prim.properties);
    NamedMembers(selection, prim.properties);
    NamedAscends(lt, selection, prim.properties);
    RowsAscend(named, settings, fetchValues, time, prim, lt);
    forall row { RowMembers(named, settings, fetchValues, time, prim, row); }
  }

  class PropertiesProducer {
    var time: Time
    const settings: Settings
    const fetchValues: bool
    const selection: PropertySelection
    var rows: seq<PropertyRow>

    ghost predicate Valid()
      reads this, selection
    {
      selection.Valid()
    }

    constructor (naming: Naming, options: Selection, settings: Settings, time: Time, columns: seq<nat>)
      requires TotalOrder(naming.lt) && Canonical(options)
      ensures Valid() && selection.selection == options && selection.naming == naming && fresh(selection)
      ensures this.settings == settings && this.time == time && rows == []
      ensures fetchValues <==> NeedsValues(columns)
    {
      this.time := time;
      this.settings := settings;
      fetchValues := NeedsValues(columns);
      selection := new PropertySelection(naming, options);
      rows := [];
    }

    method SetTime(time: Time)
      modifies this`time
      ensures this.time == time
    {
      this.time := time;
    }

    /** The loop of AddPrim. */
    method AddProperties(properties: seq<Property>, prim: Prim)
      modifies this`rows
      ensures rows == old(rows) + MakeRows(properties, settings, fetchValues, time, prim)
    {
      assert properties[..0] == [];
      for i := 0 to |properties|
        invariant rows == old(rows) + MakeRows(properties[..i], settings, fetchValues, time, prim)
      {
        hide MakeRows;
        var property := properties[i];
        MakeRowsSnoc(properties[..i], property, settings, fetchValues, time, prim);
        assert properties[..i + 1] == properties[..i] + [property];
        if settings.authoredOnly && !property.isAuthored {
          continue;
        }
        var row := PropertyRow(prim, property, property.isAttribute, NoValue);
        if fetchValues {
          row := row.(value := property.values(time));
        }
        rows := rows + [row];
      }
      assert properties[..|properties|] == properties;
    }

    method AddPrim(prim: Prim)
      requires Valid() && WellNamed(selection.naming, prim)
      modifies this`rows
      ensures Valid()
      ensures rows == old(rows) +
        MakeRows(Named(selection.selection, prim.properties), settings, fetchValues, time, prim)
      ensures old(rows) <= rows
      ensures AreRowsOf(rows[|old(rows)|..], selection.selection, selection.naming, settings, fetchValues, time, prim)
    {
      RowsAreRight(selection.selection, selection.naming, settings, fetchValues, time, prim);
      hide Named, AreRowsOf, WellNamed, TotalOrder, MakeRows;
      var properties := selection.Get(prim);
      AddProperties(properties, prim);
      assert rows[|old(rows)|..] == MakeRows(properties, settings, fetchValues, time, prim);
    }
  }

  // ---------------------------------------------------------------- columns

  /** What is written to a column of usd_properties. */
  function Cell(row: PropertyRow, column: nat, maxArrayLength: nat): Value {
    var p := row.property;
    match column
    case PRIM_PATH => Varchar(row.prim.path)
    case PROPERTY_NAME => Varchar(p.name)
    case PROPERTY_KIND => Varchar(if row.isAttribute then "attribute" else "relationship")
    case TYPE_NAME => if row.isAttribute then Varchar(p.typeName) else Null
    case IS_ARRAY => if row.isAttribute then Bool(p.isArray) else Null
    case IS_CUSTOM => Bool(p.isCustom)
    case IS_AUTHORED => Bool(p.isAuthored)
    case VARIABILITY => Varchar(if !row.isAttribute || p.isUniform then "uniform" else "varying")
    case TIME_SAMPLE_COUNT => if row.isAttribute then Integer(p.timeSamples) else Null
    case ARRAY_LENGTH => if row.value.Array? then Integer(row.value.length) else Null
    case _ =>
      match row.value
      case NoValue => Null
      case Single(json) => Variant(None, json)
      case Array(length, json) =>
        if maxArrayLength > 0 && length > maxArrayLength then Null else Variant(Some(length), json)
  }

  /** A visit of the scan to a prim, at a time. `extra` is what the scan itself writes to the columns that follow
      those of the function ("time" and "filename"). */
  datatype Visit = Visit(prim: Prim, time: Time, extra: nat -> Value)

  function WriteRow(row: PropertyRow, visit: Visit, settings: Settings, columnIds: seq<nat>): Row {
    seq(|columnIds|, i requires 0 <= i < |columnIds| =>
      if columnIds[i] <= VALUE then Cell(row, columnIds[i], settings.maxArrayLength) else visit.extra(columnIds[i]))
  }

  function WriteRows(rows: seq<PropertyRow>, visit: Visit, settings: Settings, columnIds: seq<nat>): seq<Row> {
    seq(|rows|, i requires 0 <= i < |rows| => WriteRow(rows[i], visit, settings, columnIds))
  }

  /** No projected column needs values that were not fetched. */
  lemma SameCells(p: Property, visit: Visit, settings: Settings, columnIds: seq<nat>)
    ensures var fetchValues := NeedsValues(columnIds);
      WriteRows(RowsFor(p, settings, fetchValues, visit.time, visit.prim), visit, settings, columnIds) ==
      WriteRows(RowsFor(p, settings, true, visit.time, visit.prim), visit, settings, columnIds)
  {
    var fetchValues := NeedsValues(columnIds);
    if !fetchValues {
      var a := PropertyRow(visit.prim, p, p.isAttribute, NoValue);
      var b := PropertyRow(visit.prim, p, p.isAttribute, p.values(visit.time));
      forall i | 0 <= i < |columnIds|
        ensures WriteRow(a, visit, settings, columnIds)[i] == WriteRow(b, visit, settings, columnIds)[i]
      {
        assert columnIds[i] in columnIds;
      }
      assert WriteRow(a, visit, settings, columnIds) == WriteRow(b, visit, settings, columnIds);
    }
  }

  /** The columns of a property's row say what the property is. Those that are made of its value have it, whatever the
      other columns are: an array's length is always written, its elements unless there are too many. */
  lemma CellsSay(p: Property, visit: Visit, settings: Settings, columnIds: seq<nat>, i: nat)
    requires i < |columnIds| && (settings.authoredOnly ==> p.isAuthored)
    ensures var rows := WriteRows(RowsFor(p, settings, NeedsValues(columnIds), visit.time, visit.prim), visit, settings,
                                  columnIds);
            && |rows| == 1 && |rows[0]| == |columnIds|
            && var column, cell, value := columnIds[i], rows[0][i], p.values(visit.time);
            && (column == PRIM_PATH ==> cell == Varchar(visit.prim.path))
            && (column == PROPERTY_NAME ==> cell == Varchar(p.name))
            && (column == PROPERTY_KIND ==> cell == Varchar(if p.isAttribute then "attribute" else "relationship"))
            && (column in {TYPE_NAME, IS_ARRAY, TIME_SAMPLE_COUNT} && !p.isAttribute ==> cell == Null)
            && (column == TYPE_NAME && p.isAttribute ==> cell == Varchar(p.typeName))
            && (column == IS_ARRAY && p.isAttribute ==> cell == Bool(p.isArray))
            && (column == TIME_SAMPLE_COUNT && p.isAttribute ==> cell == Integer(p.timeSamples))
            && (column == IS_CUSTOM ==> cell == Bool(p.isCustom))
            && (column == IS_AUTHORED ==> cell == Bool(p.isAuthored))
            && (column == VARIABILITY ==>
                  (cell == Varchar("varying") <==> p.isAttribute && !p.isUniform) &&
                  (cell == Varchar("uniform") <==> p.isAttribute ==> p.isUniform))
            && (column == ARRAY_LENGTH ==> cell == if value.Array? then Integer(value.length) else Null)
            && (column == VALUE ==>
                  (cell == Null <==>
                     value.NoValue? || (value.Array? && settings.maxArrayLength > 0 &&
                                        value.length > settings.maxArrayLength)) &&
                  (cell != Null ==> cell == Variant(if value.Array? then Some(value.length) else None, value.json)))
            && (column > VALUE ==> cell == visit.extra(column))
  {
    SameCells(p, visit, settings, columnIds);
    assert "uniform"[0] != "varying"[0];
  }

  lemma WriteAppend(a: seq<PropertyRow>, b: seq<PropertyRow>, visit: Visit, settings: Settings, columnIds: seq<nat>)
    ensures WriteRows(a + b, visit, settings, columnIds) ==
      WriteRows(a, visit, settings, columnIds) + WriteRows(b, visit, settings, columnIds)
  {
  }
}
