/** The sequential walk, without the morsels it is cut into. */
module UsdScanWalk {
  import opened UsdRows
  import opened UsdScanModel
  import opened Wrappers

  // ---------------------------------------------------------------- rows of units

  lemma Assoc(a: seq<OutRow>, b: seq<OutRow>, c: seq<OutRow>)
    ensures a + b + c == a + (b + c)
  {
  }

  /** The rows of units, unit after unit. */
  function Over(of: Unit -> seq<OutRow>, units: seq<Unit>): seq<OutRow> {
    if units == [] then [] else of(units[0]) + Over(of, units[1..])
  }

  lemma {:induction false} OverAppend(of: Unit -> seq<OutRow>, a: seq<Unit>, b: seq<Unit>)
    ensures Over(of, a + b) == Over(of, a) + Over(of, b)
  {
    if a == [] {
      assert a + b == b && [] + Over(of, b) == Over(of, b);
    } else {
      assert (a + b)[1..] == a[1..] + b;
      assert Over(of, a + b) == of(a[0]) + Over(of, a[1..] + b) && Over(of, a) == of(a[0]) + Over(of, a[1..]);
      hide Over;
      OverAppend(of, a[1..], b);
      Assoc(of(a[0]), Over(of, a[1..]), Over(of, b));
    }
  }

  lemma OverOne(of: Unit -> seq<OutRow>, u: Unit)
    ensures Over(of, [u]) == of(u)
  {
    assert [u][1..] == [] && of(u) + [] == of(u);
  }

  lemma {:induction false} OverSame(of: Unit -> seq<OutRow>, same: Unit -> seq<OutRow>, units: seq<Unit>)
    requires forall u :: of(u) == same(u)
    ensures Over(of, units) == Over(same, units)
  {
    if units == [] {
    } else {
      OverSame(of, same, units[1..]);
    }
  }

  function UnitsRows(scan: Scan): Unit -> seq<OutRow> {
    (u: Unit) => UnitRows(scan, u)
  }

  lemma {:induction false} AllRowsOver(scan: Scan, units: seq<Unit>)
    ensures AllRows(scan, units) == Over(UnitsRows(scan), units)
    decreases |units|
  {
    hide UnitRows;
    if units == [] {
    } else {
      var n := |units| - 1;
      assert AllRows(scan, units) == AllRows(scan, units[..n]) + UnitRows(scan, units[n]);
      assert units == units[..n] + [units[n]];
      hide Over, AllRows;
      AllRowsOver(scan, units[..n]);
      OverAppend(UnitsRows(scan), units[..n], [units[n]]);
      OverOne(UnitsRows(scan), units[n]);
    }
  }

  // ---------------------------------------------------------------- passes

  /** The rows of a unit in the pass at one time. */
  function Pass(scan: Scan, time: Time, tag: Option<real>): Unit -> seq<OutRow> {
    (u: Unit) => PassRows(scan, u.file, time, tag, u.prims)
  }

  function FileWalk(scan: Scan, f: nat, time: Time, tag: Option<real>): seq<OutRow>
    requires f < |scan.files|
  {
    match scan.files[f]
    case Opens(Some(prims)) => PassRows(scan, f, time, tag, prims)
    case _ => []
  }

  /** The rows of the prims of the files from `f`, file after file, prim after prim, at one time. */
  function Walk(scan: Scan, f: nat, time: Time, tag: Option<real>): seq<OutRow>
    requires f <= |scan.files|
    decreases |scan.files| - f
  {
    if f == |scan.files| then [] else FileWalk(scan, f, time, tag) + Walk(scan, f + 1, time, tag)
  }

  lemma {:induction false} PassRowsAppend(scan: Scan, f: nat, time: Time, tag: Option<real>, a: seq<Prim>, b: seq<Prim>)
    ensures PassRows(scan, f, time, tag, a + b) == PassRows(scan, f, time, tag, a) + PassRows(scan, f, time, tag, b)
    decreases |b|
  {
    if b == [] {
      assert a + b == a;
    } else {
      var n := |b| - 1;
      assert (a + b)[..|a + b| - 1] == a + b[..n];
      var last := Tag(scan.primRows(f, time, b[n]), tag);
      assert PassRows(scan, f, time, tag, a + b) == PassRows(scan, f, time, tag, a + b[..n]) + last;
      assert PassRows(scan, f, time, tag, b) == PassRows(scan, f, time, tag, b[..n]) + last;
      hide PassRows;
      PassRowsAppend(scan, f, time, tag, a, b[..n]);
      Assoc(PassRows(scan, f, time, tag, a), PassRows(scan, f, time, tag, b[..n]), last);
    }
  }

  /** A pass over the runs of a file's prims. */
  lemma {:induction false} PassOverRuns(scan: Scan, f: nat, prims: seq<Prim>, position: nat, time: Time,
                                        tag: Option<real>)
    requires position <= |prims|
    ensures Over(Pass(scan, time, tag), Runs(f, prims, position)) == PassRows(scan, f, time, tag, prims[position..])
    decreases |prims| - position
  {
    var end := Smaller(position + MORSEL_SIZE, |prims|);
    if position == end {
    } else {
      var first := Unit(f, prims[position..end]);
      assert Runs(f, prims, position) == [first] + Runs(f, prims, end);
      assert prims[position..] == prims[position..end] + prims[end..];
      hide PassRows, Over, Runs;
      PassOverRuns(scan, f, prims, end, time, tag);
      OverAppend(Pass(scan, time, tag), [first], Runs(f, prims, end));
      OverOne(Pass(scan, time, tag), first);
      PassRowsAppend(scan, f, time, tag, prims[position..end], prims[end..]);
    }
  }

  lemma PassOverFile(scan: Scan, f: nat, time: Time, tag: Option<real>)
    requires !scan.stageUnit && f < |scan.files|
    ensures Over(Pass(scan, time, tag), FileUnits(scan, f)) == FileWalk(scan, f, time, tag)
  {
    hide PassRows, Runs;
    if scan.files[f].Opens? && scan.files[f].prims.Some? {
      var prims := scan.files[f].prims.value;
      PassOverRuns(scan, f, prims, 0, time, tag);
      assert prims[0..] == prims;
    }
  }

  lemma UnitsFrom(scan: Scan, f: nat, time: Time, tag: Option<real>)
    requires f < |scan.files|
    ensures Units(scan, f) == FileUnits(scan, f) + Units(scan, f + 1)
    ensures Walk(scan, f, time, tag) == FileWalk(scan, f, time, tag) + Walk(scan, f + 1, time, tag)
  {
    hide FileUnits, FileWalk;
  }

  lemma NothingLeft(scan: Scan, time: Time, tag: Option<real>)
    ensures Over(Pass(scan, time, tag), Units(scan, |scan.files|)) == Walk(scan, |scan.files|, time, tag)
  {
  }

  /** The rows of one pass, taken over all units, are those of a walk at its time: morsels do not show. */
  lemma {:induction false} PassOverUnits(scan: Scan, f: nat, time: Time, tag: Option<real>)
    requires !scan.stageUnit && f <= |scan.files|
    ensures Over(Pass(scan, time, tag), Units(scan, f)) == Walk(scan, f, time, tag)
    decreases |scan.files| - f
  {
    hide *;
    if f == |scan.files| {
      NothingLeft(scan, time, tag);
    } else {
      UnitsFrom(scan, f, time, tag);
      PassOverUnits(scan, f + 1, time, tag);
      PassOverFile(scan, f, time, tag);
      OverAppend(Pass(scan, time, tag), FileUnits(scan, f), Units(scan, f + 1));
    }
  }

  /** Without "times", the rows are those of the prims of the files, in order. */
  lemma SequentialIsWalk(scan: Scan)
    requires !scan.stageUnit && scan.times == []
    ensures Sequential(scan) == Walk(scan, 0, scan.time, None)
  {
    hide Over, Units, Walk, AllRows, PassRows;
    AllRowsOver(scan, Units(scan, 0));
    OverSame(UnitsRows(scan), Pass(scan, scan.time, None), Units(scan, 0));
    PassOverUnits(scan, 0, scan.time, None);
  }

  // ---------------------------------------------------------------- keeping some rows

  function Keep(keep: OutRow -> bool, rows: seq<OutRow>): seq<OutRow> {
    if rows == [] then []
    else (if keep(rows[0]) then [rows[0]] else []) + Keep(keep, rows[1..])
  }

  lemma {:induction false} KeepAppend(keep: OutRow -> bool, a: seq<OutRow>, b: seq<OutRow>)
    ensures Keep(keep, a + b) == Keep(keep, a) + Keep(keep, b)
  {
    if a == [] {
      assert a + b == b && [] + Keep(keep, b) == Keep(keep, b);
    } else {
      var first := if keep(a[0]) then [a[0]] else [];
      assert (a + b)[1..] == a[1..] + b;
      assert Keep(keep, a + b) == first + Keep(keep, a[1..] + b) && Keep(keep, a) == first + Keep(keep, a[1..]);
      hide Keep;
      KeepAppend(keep, a[1..], b);
      Assoc(first, Keep(keep, a[1..]), Keep(keep, b));
    }
  }

  lemma {:induction false} KeepAll(keep: OutRow -> bool, rows: seq<OutRow>)
    requires forall i :: 0 <= i < |rows| ==> keep(rows[i])
    ensures Keep(keep, rows) == rows
  {
    if rows == [] {
    } else {
      KeepAll(keep, rows[1..]);
      assert rows == [rows[0]] + rows[1..];
    }
  }

  lemma {:induction false} KeepNone(keep: OutRow -> bool, rows: seq<OutRow>)
    requires forall i :: 0 <= i < |rows| ==> !keep(rows[i])
    ensures Keep(keep, rows) == []
  {
    if rows == [] {
    } else {
      KeepNone(keep, rows[1..]);
      assert [] + Keep(keep, rows[1..]) == Keep(keep, rows[1..]);
    }
  }

  function KeptOf(keep: OutRow -> bool, of: Unit -> seq<OutRow>): Unit -> seq<OutRow> {
    (u: Unit) => Keep(keep, of(u))
  }

  lemma {:induction false} KeepOver(keep: OutRow -> bool, of: Unit -> seq<OutRow>, units: seq<Unit>)
    ensures Keep(keep, Over(of, units)) == Over(KeptOf(keep, of), units)
  {
    if units == [] {
    } else {
      assert Over(of, units) == of(units[0]) + Over(of, units[1..]);
      assert Over(KeptOf(keep, of), units) == KeptOf(keep, of)(units[0]) + Over(KeptOf(keep, of), units[1..]);
      hide Over, Keep;
      KeepOver(keep, of, units[1..]);
      KeepAppend(keep, of(units[0]), Over(of, units[1..]));
    }
  }

  // ---------------------------------------------------------------- with times

  function AtTime(time: real): OutRow -> bool {
    (row: OutRow) => row.time == Some(time)
  }

  lemma {:induction false} PassTags(scan: Scan, f: nat, time: Time, tag: Option<real>, prims: seq<Prim>)
    ensures forall i :: 0 <= i < |PassRows(scan, f, time, tag, prims)| ==>
              PassRows(scan, f, time, tag, prims)[i].time == tag
    decreases |prims|
  {
    if prims == [] {
    } else {
      PassTags(scan, f, time, tag, prims[..|prims| - 1]);
    }
  }

  ghost predicate Distinct(times: seq<real>) {
    forall i, j :: 0 <= i < j < |times| ==> times[i] != times[j]
  }

  /** Of a unit's rows, those at one of the times are the pass at that time. */
  lemma {:induction false} TimesRowsAt(scan: Scan, f: nat, times: seq<real>, prims: seq<Prim>, time: real)
    requires Distinct(times)
    ensures Keep(AtTime(time), TimesRows(scan, f, times, prims)) ==
            if time in times then PassRows(scan, f, TimeCode(time), Some(time), prims) else []
    decreases |times|
  {
    if times == [] {
    } else {
      var n := |times| - 1;
      var before := TimesRows(scan, f, times[..n], prims);
      var pass := PassRows(scan, f, TimeCode(times[n]), Some(times[n]), prims);
      assert TimesRows(scan, f, times, prims) == before + pass;
      assert times == times[..n] + [times[n]];
      PassTags(scan, f, TimeCode(times[n]), Some(times[n]), prims);
      hide PassRows, TimesRows, Keep;
      TimesRowsAt(scan, f, times[..n], prims, time);
      KeepAppend(AtTime(time), before, pass);
      if time == times[n] {
        KeepAll(AtTime(time), pass);
        assert time !in times[..n];
      } else {
        KeepNone(AtTime(time), pass);
      }
    }
  }

  /** With "times" (each given once), the rows that a scan returns for one of the times are those of a walk at that
      time. */
  lemma EachTimeIsAWalk(scan: Scan, time: real)
    requires !scan.stageUnit && Distinct(scan.times) && time in scan.times
    ensures Keep(AtTime(time), Sequential(scan)) == Walk(scan, 0, TimeCode(time), Some(time))
  {
    hide Over, Units, Walk, AllRows, PassRows, TimesRows, Keep;
    var units := Units(scan, 0);
    AllRowsOver(scan, units);
    KeepOver(AtTime(time), UnitsRows(scan), units);
    forall u: Unit ensures KeptOf(AtTime(time), UnitsRows(scan))(u) == Pass(scan, TimeCode(time), Some(time))(u) {
      TimesRowsAt(scan, u.file, scan.times, u.prims, time);
    }
    OverSame(KeptOf(AtTime(time), UnitsRows(scan)), Pass(scan, TimeCode(time), Some(time)), units);
    PassOverUnits(scan, 0, TimeCode(time), Some(time));
  }

  // ---------------------------------------------------------------- scans that return fewer rows

  function ByRow(keep: Row -> bool): OutRow -> bool {
    (row: OutRow) => keep(row.row)
  }

  /** The scans differ only in the rows of prims: of those of `more`, `fewer` has the ones to keep. */
  ghost predicate Keeps(keep: Row -> bool, fewer: Scan, more: Scan) {
    && fewer == more.(primRows := fewer.primRows) && !more.stageUnit
    && forall f: nat, time: Time, prim: Prim, tag: Option<real> ::
         Tag(fewer.primRows(f, time, prim), tag) == Keep(ByRow(keep), Tag(more.primRows(f, time, prim), tag))
  }

  lemma KeepPrim(keep: Row -> bool, fewer: Scan, more: Scan, f: nat, time: Time, tag: Option<real>, prim: Prim)
    requires Keeps(keep, fewer, more)
    ensures Tag(fewer.primRows(f, time, prim), tag) == Keep(ByRow(keep), Tag(more.primRows(f, time, prim), tag))
  {
    hide Tag, Keep;
  }

  lemma {:induction false} KeepPass(keep: Row -> bool, fewer: Scan, more: Scan, f: nat, time: Time,
                                    tag: Option<real>, prims: seq<Prim>)
    requires Keeps(keep, fewer, more)
    ensures PassRows(fewer, f, time, tag, prims) == Keep(ByRow(keep), PassRows(more, f, time, tag, prims))
    decreases |prims|
  {
    hide Tag, Keep, Keeps;
    if prims == [] {
      KeepNone(ByRow(keep), []);
    } else {
      var n := |prims| - 1;
      KeepPass(keep, fewer, more, f, time, tag, prims[..n]);
      KeepPrim(keep, fewer, more, f, time, tag, prims[n]);
      KeepAppend(ByRow(keep), PassRows(more, f, time, tag, prims[..n]), Tag(more.primRows(f, time, prims[n]), tag));
    }
  }

  lemma {:induction false} KeepTimes(keep: Row -> bool, fewer: Scan, more: Scan, f: nat, times: seq<real>,
                                     prims: seq<Prim>)
    requires Keeps(keep, fewer, more)
    ensures TimesRows(fewer, f, times, prims) == Keep(ByRow(keep), TimesRows(more, f, times, prims))
    decreases |times|
  {
    hide PassRows, Keep, Keeps;
    if times == [] {
      KeepNone(ByRow(keep), []);
    } else {
      var n := |times| - 1;
      var time, tag := TimeCode(times[n]), Some(times[n]);
      KeepTimes(keep, fewer, more, f, times[..n], prims);
      KeepPass(keep, fewer, more, f, time, tag, prims);
      KeepAppend(ByRow(keep), TimesRows(more, f, times[..n], prims), PassRows(more, f, time, tag, prims));
    }
  }

  lemma {:induction false} SameUnits(a: Scan, b: Scan, f: nat)
    requires a.files == b.files && a.stageUnit == b.stageUnit && f <= |a.files|
    ensures Units(a, f) == Units(b, f)
    decreases |a.files| - f
  {
    hide Runs;
    if f == |a.files| {
    } else {
      SameUnits(a, b, f + 1);
    }
  }

  /** The whole sequential walk has the rows to keep, too. */
  lemma KeepSequential(keep: Row -> bool, fewer: Scan, more: Scan)
    requires Keeps(keep, fewer, more)
    ensures Sequential(fewer) == Keep(ByRow(keep), Sequential(more))
  {
    hide Over, Units, AllRows, PassRows, TimesRows, Keep;
    SameUnits(fewer, more, 0);
    var units := Units(more, 0);
    AllRowsOver(fewer, units);
    AllRowsOver(more, units);
    KeepOver(ByRow(keep), UnitsRows(more), units);
    forall u: Unit ensures UnitsRows(fewer)(u) == KeptOf(ByRow(keep), UnitsRows(more))(u) {
      KeepPass(keep, fewer, more, u.file, more.time, None, u.prims);
      KeepTimes(keep, fewer, more, u.file, more.times, u.prims);
    }
    OverSame(UnitsRows(fewer), KeptOf(ByRow(keep), UnitsRows(more)), units);
  }
}
