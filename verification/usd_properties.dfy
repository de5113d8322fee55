/** The properties that a scan reads from each prim, and the rows it makes of them. */
module UsdProperties {
  import opened Wrappers
  import opened Ordering
  import opened UsdPushdown
  import opened UsdRows

  // ---------------------------------------------------------------- prims

  /** A value: none, one that is not an array, or an array. `json` stands for what it prints as. */
  datatype VtValue = NoValue | Single(json: int) | Array(length: nat, json: int)

  /** `values` is what the property has at each time: an attribute's value, or a relationship's targets. */
  datatype Property = Property(
    name: string, isAttribute: bool, isAuthored: bool,
    typeName: string, isArray: bool, isCustom: bool, isUniform: bool, timeSamples: nat,
    values: Time -> VtValue)

  datatype Prim = Prim(path: string, properties: seq<Property>)

  /** USD's property names: which are valid, and the order it lists them in (TfDictionaryLessThan). */
  datatype Naming = Naming(valid: string -> bool, lt: (string, string) -> bool)

  predicate NameLess(naming: Naming, p: Property, q: Property) {
    naming.lt(p.name, q.name)
  }

  /** A prim lists its properties by name; names are valid, and no two are the same. */
  predicate WellNamed(naming: Naming, prim: Prim) {
    && (forall i :: 0 <= i < |prim.properties| ==> naming.valid(prim.properties[i].name))
    && Ascending((p, q) => NameLess(naming, p, q), prim.properties)
  }

  /** UsdPrim::GetAttribute and UsdPrim::GetRelationship: the property of that kind and name. */
  function Lookup(properties: seq<Property>, name: string, isAttribute: bool): (found: Option<Property>)
    ensures found.Some? ==>
              found.value in properties && found.value.name == name && found.value.isAttribute == isAttribute
    ensures found.None? ==> forall p :: p in properties ==> p.name != name || p.isAttribute != isAttribute
  {
    if properties == [] then None
    else if properties[0].name == name && properties[0].isAttribute == isAttribute then Some(properties[0])
    else Lookup(properties[1..], name, isAttribute)
  }

  /** The properties with selected names, in their own order. */
  function Named(s: Selection, properties: seq<Property>): seq<Property> {
    if properties == [] then []
    else (if Selects(s, properties[0].name) then [properties[0]] else []) + Named(s, properties[1..])
  }

  lemma {:induction false} NamedMembers(s: Selection, properties: seq<Property>)
    ensures forall p :: p in Named(s, properties) <==> p in properties && Selects(s, p.name)
  {
    if properties == [] {
    } else {
      NamedMembers(s, properties[1..]);
      assert properties == [properties[0]] + properties[1..];
    }
  }

  lemma {:induction false} NamedAscends(lt: (Property, Property) -> bool, s: Selection, properties: seq<Property>)
    requires StrictOrder(lt) && Ascending(lt, properties)
    ensures Ascending(lt, Named(s, properties))
  {
    if properties == [] {
    } else {
      NamedAscends(lt, s, properties[1..]);
      NamedMembers(s, properties[1..]);
      var rest := Named(s, properties[1..]);
      forall i | 0 <= i < |rest| ensures lt(properties[0], rest[i]) {
        assert rest[i] in properties[1..];
      }
    }
  }

  lemma {:induction false} EverythingNamed(s: Selection, properties: seq<Property>)
    requires !s.filterPropertyNames
    ensures Named(s, properties) == properties
  {
    if properties == [] {
    } else {
      EverythingNamed(s, properties[1..]);
    }
  }

  lemma {:induction false} Once(a: seq<string>, x: string)
    requires forall i, j :: 0 <= i < j < |a| ==> a[i] != a[j]
    ensures multiset(a)[x] <= 1
  {
    if a == [] {
    } else {
      Once(a[1..], x);
      assert a == [a[0]] + a[1..];
      if a[0] == x {
        assert x !in a[1..];
        assert x !in multiset(a[1..]);
      }
    }
  }

  lemma DistinctStays(a: seq<string>, b: seq<string>)
    requires multiset(a) == multiset(b) && (forall i, j :: 0 <= i < j < |a| ==> a[i] != a[j])
    ensures forall i, j :: 0 <= i < j < |b| ==> b[i] != b[j]
  {
    forall i, j | 0 <= i < j < |b| ensures b[i] != b[j] {
      var x := b[i];
      if x == b[j] {
        assert b == b[..j] + ([b[j]] + b[j + 1..]);
        assert x in b[..j];
        assert multiset(b)[x] >= 2;
        assert x in multiset(a);
        Once(a, x);
      }
    }
  }

  lemma SortAscends(naming: Naming, names: seq<string>)
    requires TotalOrder(naming.lt) && (forall i, j :: 0 <= i < j < |names| ==> names[i] != names[j])
    ensures Ascending(naming.lt, Sort(naming.lt, names))
  {
    SortSorts(naming.lt, names);
    var sorted := Sort(naming.lt, names);
    DistinctStays(names, sorted);
  }

  lemma OneOfThatName(naming: Naming, prim: Prim, name: string)
    requires TotalOrder(naming.lt) && WellNamed(naming, prim)
    ensures forall p, q :: p in prim.properties && q in prim.properties && p.name == q.name == name ==> p == q
  {
  }

  /** UsdPropertySelection */
  class PropertySelection {
    const naming: Naming
    const filter: bool
    var names: seq<string>
    ghost const selection: Selection

    ghost predicate Valid()
      reads this
    {
      && TotalOrder(naming.lt) && filter == selection.filterPropertyNames
      && Ascending(naming.lt, names)
      && forall name :: name in names <==> name in selection.propertyNames && naming.valid(name)
    }

    constructor (naming: Naming, options: Selection)
      requires TotalOrder(naming.lt) && Canonical(options)
      ensures Valid() && selection == options && this.naming == naming
    {
      this.naming := naming;
      filter := options.filterPropertyNames;
      selection := options;
      names := [];
      new;
      LessIsOrder();
      for i := 0 to |options.propertyNames|
        invariant forall name :: name in names <==> name in options.propertyNames[..i] && naming.valid(name)
        invariant forall j, k :: 0 <= j < k < |names| ==> names[j] != names[k]
      {
        // no prim has a property of another name
        if naming.valid(options.propertyNames[i]) {
          assert options.propertyNames[i] !in options.propertyNames[..i];
          names := names + [options.propertyNames[i]];
        }
      }
      SortAscends(naming, names);
      SortMembers(naming.lt, names);
      names := Sort(naming.lt, names);
    }

    /** Although it looks every name up, the result is what filtering the prim's properties by name would give. */
    method Get(prim: Prim) returns (result: seq<Property>)
      requires Valid() && WellNamed(naming, prim)
      ensures result == Named(selection, prim.properties)
    {
      if !filter {
        EverythingNamed(selection, prim.properties);
        return prim.properties;
      }
      ghost var lt := (p, q) => NameLess(naming, p, q);
      result := [];
      for i := 0 to |names|
        invariant forall p :: p in result <==> p in prim.properties && p.name in names[..i]
        invariant Ascending(lt, result)
      {
        ghost var before := result;
        var attribute := Lookup(prim.properties, names[i], true);
        if attribute.Some? {
          result := result + [attribute.value];
        } else {
          var relationship := Lookup(prim.properties, names[i], false);
          if relationship.Some? {
            result := result + [relationship.value];
          }
        }
        OneOfThatName(naming, prim, names[i]);
        assert forall p :: p in before ==> naming.lt(p.name, names[i]);
      }
      NamedMembers(selection, prim.properties);
      NamedAscends(lt, selection, prim.properties);
      SameElementsSameList(lt, result, Named(selection, prim.properties));
    }
  }
}
