/** Lists in ascending order: std::sort and std::unique, and the byte order of strings. */
module Ordering {
  ghost predicate StrictOrder<T(!new)>(lt: (T, T) -> bool) {
    && (forall a: T :: !lt(a, a))
    && (forall a: T, b: T, c: T :: lt(a, b) && lt(b, c) ==> lt(a, c))
  }

  ghost predicate TotalOrder<T(!new)>(lt: (T, T) -> bool) {
    StrictOrder(lt) && forall a: T, b: T :: a == b || lt(a, b) || lt(b, a)
  }

  predicate Ascending<T>(lt: (T, T) -> bool, s: seq<T>) {
    forall i, j :: 0 <= i < j < |s| ==> lt(s[i], s[j])
  }

  /** In ascending order, but with duplicates. */
  predicate Sorted<T(==)>(lt: (T, T) -> bool, s: seq<T>) {
    forall i, j :: 0 <= i < j < |s| ==> s[i] == s[j] || lt(s[i], s[j])
  }

  lemma AfterFirst<T(!new)>(lt: (T, T) -> bool, s: seq<T>, x: T)
    requires StrictOrder(lt) && Ascending(lt, s) && s != []
    ensures x in s[1..] <==> x in s && x != s[0]
  {
  }

  /** A set has one ascending list. */
  lemma {:induction false} SameElementsSameList<T(!new)>(lt: (T, T) -> bool, a: seq<T>, b: seq<T>)
    requires StrictOrder(lt) && Ascending(lt, a) && Ascending(lt, b)
    requires forall x :: x in a <==> x in b
    ensures a == b
    decreases |a|
  {
    assert (a != [] ==> a[0] in a) && (b != [] ==> b[0] in b);
    if a != [] && b != [] {
      assert a[0] in b && b[0] in a;
      var i :| 0 <= i < |b| && b[i] == a[0];
      var j :| 0 <= j < |a| && a[j] == b[0];
      assert a[0] == b[0];
      forall x ensures x in a[1..] <==> x in b[1..] {
        AfterFirst(lt, a, x);
        AfterFirst(lt, b, x);
      }
      SameElementsSameList(lt, a[1..], b[1..]);
      assert a == [a[0]] + a[1..] && b == [b[0]] + b[1..];
    }
  }

  function Insert<T(==)>(lt: (T, T) -> bool, x: T, s: seq<T>): (r: seq<T>)
    ensures multiset(r) == multiset(s) + multiset{x}
  {
    if s == [] || lt(x, s[0]) then [x] + s
    else
      assert s == [s[0]] + s[1..];
      [s[0]] + Insert(lt, x, s[1..])
  }

  function Sort<T(==)>(lt: (T, T) -> bool, s: seq<T>): (r: seq<T>)
    ensures multiset(r) == multiset(s)
  {
    if s == [] then []
    else
      assert s == [s[0]] + s[1..];
      Insert(lt, s[0], Sort(lt, s[1..]))
  }

  lemma {:induction false} InsertSorted<T(!new)>(lt: (T, T) -> bool, x: T, s: seq<T>)
    requires TotalOrder(lt) && Sorted(lt, s)
    ensures Sorted(lt, Insert(lt, x, s))
  {
    if s != [] && !lt(x, s[0]) {
      InsertSorted(lt, x, s[1..]);
      var r := Insert(lt, x, s[1..]);
      forall i | 0 <= i < |r| ensures s[0] == r[i] || lt(s[0], r[i]) {
        assert r[i] in multiset(r);
        assert r[i] == x || r[i] in s[1..];
      }
    }
  }

  lemma {:induction false} SortSorts<T(!new)>(lt: (T, T) -> bool, s: seq<T>)
    requires TotalOrder(lt)
    ensures Sorted(lt, Sort(lt, s))
  {
    if s == [] {
    } else {
      SortSorts(lt, s[1..]);
      InsertSorted(lt, s[0], Sort(lt, s[1..]));
    }
  }

  /** Drops each element that equals the one before it. */
  function Unique<T(==,!new)>(s: seq<T>): (r: seq<T>)
    ensures forall x :: x in r <==> x in s
  {
    if |s| <= 1 then s
    else
      assert s == [s[0]] + s[1..];
      if s[0] == s[1] then Unique(s[1..]) else [s[0]] + Unique(s[1..])
  }

  lemma {:induction false} UniqueAscends<T(!new)>(lt: (T, T) -> bool, s: seq<T>)
    requires StrictOrder(lt) && Sorted(lt, s)
    ensures Ascending(lt, Unique(s))
  {
    if |s| > 1 {
      UniqueAscends(lt, s[1..]);
      if s[0] != s[1] {
        var r := Unique(s[1..]);
        forall i | 0 <= i < |r| ensures lt(s[0], r[i]) {
          assert r[i] in s[1..];
          var j :| 1 <= j < |s| && s[j] == r[i];
          assert s[1] == s[j] || lt(s[1], s[j]);
        }
      }
    }
  }

  lemma SortMembers<T(!new)>(lt: (T, T) -> bool, s: seq<T>)
    ensures forall x :: x in Sort(lt, s) <==> x in s
  {
    forall x ensures x in Sort(lt, s) <==> x in s {
      assert x in s <==> x in multiset(s);
      assert x in Sort(lt, s) <==> x in multiset(Sort(lt, s));
    }
  }

  // ---------------------------------------------------------------- the order of std::string

  predicate Less(a: string, b: string) {
    b != "" && (a == "" || a[0] < b[0] || (a[0] == b[0] && Less(a[1..], b[1..])))
  }

  lemma {:induction false} LessTransitive(a: string, b: string, c: string)
    requires Less(a, b) && Less(b, c)
    ensures Less(a, c)
  {
    if a != "" && a[0] == b[0] == c[0] {
      LessTransitive(a[1..], b[1..], c[1..]);
    }
  }

  lemma {:induction false} LessTotal(a: string, b: string)
    ensures !Less(a, a)
    ensures a == b || Less(a, b) || Less(b, a)
  {
    if a == "" {
    } else {
      LessTotal(a[1..], if b == "" then "" else b[1..]);
      if b != "" && a[0] == b[0] {
        assert a == [a[0]] + a[1..] && b == [b[0]] + b[1..];
      }
    }
  }

  lemma LessIsOrder()
    ensures TotalOrder(Less)
  {
    forall a, b ensures !Less(a, a) && (a == b || Less(a, b) || Less(b, a)) { LessTotal(a, b); }
    forall a, b, c | Less(a, b) && Less(b, c) ensures Less(a, c) { LessTransitive(a, b, c); }
  }
}
