/** Which files make a scan fail, and that those it passes over leave no trace. */
module UsdScanFailure {
  import opened UsdRows
  import opened UsdScanModel
  import opened UsdScanProofs
  import opened UsdScanTheorems
  import opened Wrappers

  /** The numbers of the files from `f` that can be opened. */
  function Opening(files: seq<File>, f: nat): seq<nat>
    requires f <= |files|
    decreases |files| - f
  {
    if f == |files| then [] else (if files[f].Opens? then [f] else []) + Opening(files, f + 1)
  }

  /** They are all of them, in the order of the list. */
  lemma {:induction false} OpeningHolds(files: seq<File>, f: nat)
    requires f <= |files|
    ensures forall n :: n in Opening(files, f) <==> f <= n < |files| && files[n].Opens?
    ensures forall i, j :: 0 <= i < j < |Opening(files, f)| ==> Opening(files, f)[i] < Opening(files, f)[j]
    decreases |files| - f
  {
    if f == |files| {
    } else {
      OpeningHolds(files, f + 1);
      var rest := Opening(files, f + 1);
      forall i | 0 <= i < |rest| ensures f < rest[i] {
        assert rest[i] in rest;
      }
    }
  }

  /** The same scan of a list that has nothing but the files that can be opened: they keep their rows. */
  ghost function WithoutOthers(scan: Scan): Scan {
    var kept := Opening(scan.files, 0);
    OpeningHolds(scan.files, 0);
    scan.(ignoreErrors := false,
          files := seq(|kept|, i requires 0 <= i < |kept| => assert kept[i] in kept; scan.files[kept[i]]),
          primRows := (i: nat, time: Time, prim: Prim) => if i < |kept| then scan.primRows(kept[i], time, prim) else [],
          stageRows := (i: nat) => if i < |kept| then scan.stageRows(kept[i]) else [])
  }

  /** File `i` of `other` has the rows of file `f`. */
  ghost predicate SameFile(scan: Scan, f: nat, other: Scan, i: nat) {
    && other.stageUnit == scan.stageUnit && other.time == scan.time && other.times == scan.times
    && other.stageRows(i) == scan.stageRows(f)
    && forall time, prim :: other.primRows(i, time, prim) == scan.primRows(f, time, prim)
  }

  lemma {:induction false} PassSame(scan: Scan, f: nat, other: Scan, i: nat, time: Time, tag: Option<real>,
                                    prims: seq<Prim>)
    requires SameFile(scan, f, other, i)
    ensures PassRows(other, i, time, tag, prims) == PassRows(scan, f, time, tag, prims)
  {
    if prims == [] {
    } else {
      PassSame(scan, f, other, i, time, tag, prims[..|prims| - 1]);
    }
  }

  lemma {:induction false} TimesSame(scan: Scan, f: nat, other: Scan, i: nat, times: seq<real>, prims: seq<Prim>)
    requires SameFile(scan, f, other, i)
    ensures TimesRows(other, i, times, prims) == TimesRows(scan, f, times, prims)
  {
    if times == [] {
    } else {
      var last := times[|times| - 1];
      TimesSame(scan, f, other, i, times[..|times| - 1], prims);
      PassSame(scan, f, other, i, TimeCode(last), Some(last), prims);
    }
  }

  lemma UnitSame(scan: Scan, f: nat, other: Scan, i: nat, prims: seq<Prim>)
    requires SameFile(scan, f, other, i)
    ensures UnitRows(other, Unit(i, prims)) == UnitRows(scan, Unit(f, prims))
  {
    hide PassRows, TimesRows;
    TimesSame(scan, f, other, i, scan.times, prims);
    PassSame(scan, f, other, i, scan.time, None, prims);
  }

  /** The units have the same rows, one by one. */
  ghost predicate SameUnits(scan: Scan, us: seq<Unit>, other: Scan, them: seq<Unit>) {
    |them| == |us| && forall k :: 0 <= k < |us| ==> UnitRows(other, them[k]) == UnitRows(scan, us[k])
  }

  lemma {:induction false} RunsSame(scan: Scan, f: nat, other: Scan, i: nat, prims: seq<Prim>, position: nat)
    requires SameFile(scan, f, other, i) && position <= |prims|
    ensures SameUnits(scan, Runs(f, prims, position), other, Runs(i, prims, position))
    decreases |prims| - position
  {
    hide UnitRows, SameFile;
    var end := Smaller(position + MORSEL_SIZE, |prims|);
    if position == end {
    } else {
      RunsSame(scan, f, other, i, prims, end);
      UnitSame(scan, f, other, i, prims[position..end]);
    }
  }

  lemma FileSame(scan: Scan, f: nat, other: Scan, i: nat)
    requires SameFile(scan, f, other, i) && f < |scan.files| && i < |other.files| && other.files[i] == scan.files[f]
    ensures SameUnits(scan, FileUnits(scan, f), other, FileUnits(other, i))
  {
    hide UnitRows, Runs;
    if scan.files[f].Opens? {
      UnitSame(scan, f, other, i, []);
      if scan.files[f].prims.Some? {
        RunsSame(scan, f, other, i, scan.files[f].prims.value, 0);
      }
    }
  }

  lemma NoUnits(scan: Scan, f: nat)
    requires f < |scan.files| && !scan.files[f].Opens?
    ensures FileUnits(scan, f) == []
  {
  }

  lemma {:induction false} UnitsSame(scan: Scan, f: nat, i: nat)
    requires f <= |scan.files| && i <= |Opening(scan.files, 0)|
    requires Opening(scan.files, 0)[i..] == Opening(scan.files, f)
    ensures |WithoutOthers(scan).files| == |Opening(scan.files, 0)|
    ensures SameUnits(scan, Units(scan, f), WithoutOthers(scan), Units(WithoutOthers(scan), i))
    decreases |scan.files| - f
  {
    hide UnitRows, FileUnits;
    var other := WithoutOthers(scan);
    if f == |scan.files| {
    } else if scan.files[f].Opens? {
      assert Opening(scan.files, 0)[i..][0] == f;
      assert Opening(scan.files, 0)[i..][1..] == Opening(scan.files, 0)[i + 1..];
      UnitsSame(scan, f + 1, i + 1);
      FileSame(scan, f, other, i);
    } else {
      assert FileUnits(scan, f) == [] by { NoUnits(scan, f); }
      UnitsSame(scan, f + 1, i);
    }
  }

  lemma {:induction false} AllRowsSame(scan: Scan, us: seq<Unit>, other: Scan, them: seq<Unit>)
    requires SameUnits(scan, us, other, them)
    ensures AllRows(other, them) == AllRows(scan, us)
  {
    hide UnitRows;
    if us == [] {
    } else {
      AllRowsSame(scan, us[..|us| - 1], other, them[..|them| - 1]);
    }
  }

  /** Files that cannot be opened leave no trace in the walk. */
  lemma SequentialWithoutOthers(scan: Scan)
    ensures Sequential(scan) == Sequential(WithoutOthers(scan))
  {
    hide Units, AllRows;
    UnitsSame(scan, 0, 0);
    AllRowsSame(scan, Units(scan, 0), WithoutOthers(scan), Units(WithoutOthers(scan), 0));
  }

  /** Without ignore_errors a scan fails exactly if some file cannot be opened; with it exactly if some file fails with
      something else than an IO error. Otherwise it gives what it gives for the files that open alone. */
  lemma FailsExactlyWhen(scan: Scan, threads: nat, pick: System -> nat)
    requires WellFormed(scan) && threads > 0
    ensures var end := Drive(scan, Begin(scan, threads), pick);
            && (ScanFailed(end) <==>
                  exists f :: 0 <= f < |scan.files| &&
                              if scan.ignoreErrors then scan.files[f].OtherError? else !scan.files[f].Opens?)
            && (!ScanFailed(end) ==>
                  Assembled(end.log, end.g.nextBatch) == Sequential(WithoutOthers(scan)))
  {
    hide Begin, Drive, SystemInv, Assembled, Sequential, WithoutOthers;
    StoppedIsSequential(scan, Drive(scan, Begin(scan, threads), pick));
    SequentialWithoutOthers(scan);
  }
}
