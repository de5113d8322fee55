/** The results about whole scans. */
module UsdScanTheorems {
  import opened Wrappers
  import opened UsdRows
  import opened UsdScanModel
  import opened UsdScanProofs
  import opened UsdScanRuns

  // ---------------------------------------------------------------- at every moment

  /** The scan before its first step. */
  ghost function Begin(scan: Scan, threads: nat): (s: System)
    requires WellFormed(scan)
    ensures SystemInv(scan, s) && |s.threads| == threads && s.log == []
  {
    StartHolds(scan, threads);
    Start(scan, threads)
  }

  /** The threads take steps in the order of `schedule`. */
  ghost function RunSchedule(scan: Scan, s: System, schedule: seq<nat>): System
    requires WellFormed(scan)
    requires SystemInv(scan, s)
    decreases |schedule|
  {
    if schedule == [] then s else
      StepKeeps(scan, s, schedule[0]);
      RunSchedule(scan, StepThread(scan, s, schedule[0]), schedule[1..])
  }

  lemma {:induction false} RunKeeps(scan: Scan, s: System, schedule: seq<nat>)
    requires WellFormed(scan) && SystemInv(scan, s)
    ensures SystemInv(scan, RunSchedule(scan, s, schedule))
    decreases |schedule|
  {
    if schedule == [] {
    } else {
      StepKeeps(scan, s, schedule[0]);
      RunKeeps(scan, StepThread(scan, s, schedule[0]), schedule[1..]);
    }
  }

  lemma {:induction false} PassPrefix(scan: Scan, file: nat, time: Time, tag: Option<real>, prims: seq<Prim>, n: nat)
    requires n <= |prims|
    ensures PassRows(scan, file, time, tag, prims[..n]) <= PassRows(scan, file, time, tag, prims)
    decreases |prims|
  {
    if n == |prims| {
      assert prims[..n] == prims;
    } else {
      PassPrefix(scan, file, time, tag, prims[..|prims| - 1], n);
      assert prims[..|prims| - 1][..n] == prims[..n];
    }
  }

  lemma {:induction false} TimesPrefix(scan: Scan, file: nat, times: seq<real>, prims: seq<Prim>, n: nat)
    requires n <= |times|
    ensures TimesRows(scan, file, times[..n], prims) <= TimesRows(scan, file, times, prims)
    decreases |times|
  {
    if n == |times| {
      assert times[..n] == times;
    } else {
      TimesPrefix(scan, file, times[..|times| - 1], prims, n);
      assert times[..|times| - 1][..n] == times[..n];
    }
  }

  lemma ProducedPrefix(scan: Scan, u: Unit, timeIndex: nat, n: nat)
    requires WellFormed(scan) && n <= |u.prims| && (scan.times != [] ==> timeIndex < |scan.times|)
    ensures Produced(scan, u, timeIndex, n) <= UnitRows(scan, u)
  {
    if !scan.stageUnit {
      if scan.times == [] {
        PassPrefix(scan, u.file, scan.time, None, u.prims, n);
      } else {
        var time := scan.times[timeIndex];
        PassPrefix(scan, u.file, TimeCode(time), Some(time), u.prims, n);
        TimesAppend(scan, u.file, u.prims, timeIndex);
        TimesPrefix(scan, u.file, scan.times, u.prims, timeIndex + 1);
      }
    }
  }

  lemma EmittedIsPrefix(scan: Scan, s: System, b: nat)
    requires WellFormed(scan) && SystemInv(scan, s) && b < s.g.nextBatch
    ensures Emitted(s.log, b) <= UnitRows(scan, Units(scan, 0)[b])
  {
    hide Units, Emitted, UnitRows, Produced;
    assert BatchInv(scan, Units(scan, 0), s, b);
    if t :| 0 <= t < |s.threads| && Holds(s.threads[t], b) {
      var l := s.threads[t];
      assert ThreadInv(scan, l);
      ProducedPrefix(scan, UnitOf(l.morsel.value), l.timeIndex, l.nextPrim);
    }
  }

  /** For every number of threads and every schedule, at every moment: the rows emitted for a batch are a prefix of the
      rows of its unit, and no batch has other rows. */
  lemma EveryMomentIsAPrefix(scan: Scan, threads: nat, schedule: seq<nat>, batch: nat)
    requires WellFormed(scan)
    ensures var s := RunSchedule(scan, Begin(scan, threads), schedule);
            if batch < s.g.nextBatch
            then batch < |Units(scan, 0)| && Emitted(s.log, batch) <= UnitRows(scan, Units(scan, 0)[batch])
            else Emitted(s.log, batch) == []
  {
    hide Begin, RunSchedule, UnitRows, Emitted, Units;
    var s := RunSchedule(scan, Begin(scan, threads), schedule);
    RunKeeps(scan, Begin(scan, threads), schedule);
    if batch < s.g.nextBatch { EmittedIsPrefix(scan, s, batch); } else { EmittedNone(s.log, batch); }
  }

  /** Every chunk has 1 to 2048 rows, and a shorter one completes its batch. */
  lemma ChunkSizes(scan: Scan, s: System, t: nat)
    requires WellFormed(scan) && SystemInv(scan, s)
    requires StepThread(scan, s, t).log != s.log
    ensures var log := StepThread(scan, s, t).log;
            var c := log[|log| - 1];
            && log == s.log + [c] && 1 <= |c.rows| <= 2048
            && c.batch < |Units(scan, 0)|
            && (|c.rows| < 2048 ==> Emitted(log, c.batch) == UnitRows(scan, Units(scan, 0)[c.batch]))
  {
    var l := s.threads[t];
    var b := l.morsel.value.batch;
    assert ThreadInv(scan, l) && BatchInv(scan, Units(scan, 0), s, b) && Holds(l, b);
    EmitHolds(scan, l);
    EmittedAppend(s.log, Emit(scan, l).1, b);
  }

  /** `prims` are 1024 of `all` that follow each other, or the last ones. */
  predicate IsRun(prims: seq<Prim>, all: seq<Prim>, from: nat) {
    && from + |prims| <= |all| && prims == all[from..from + |prims|]
    && 1 <= |prims| <= 1024 && (|prims| < 1024 ==> from + |prims| == |all|)
  }

  /** The prims of a morsel follow each other in the one stage that it is of. */
  ghost predicate OfItsStage(scan: Scan, m: Morsel) {
    && m.file < |scan.files| && scan.files[m.file].Opens?
    && (!scan.stageUnit ==>
          && scan.files[m.file].prims.Some?
          && exists i: nat :: IsRun(m.prims, scan.files[m.file].prims.value, i))
  }

  lemma {:induction false} NextOfItsStage(scan: Scan, g: Global)
    requires GlobalInv(scan, g)
    ensures Next(scan, g).1.Work? ==> OfItsStage(scan, Next(scan, g).1.morsel)
    decreases |scan.files| - g.nextFile, if g.stage.Some? then 2 else 0
  {
    if g.stage.Some? {
      TakeOfItsStage(scan, g);
    } else if g.nextFile < |scan.files| {
      var f := g.nextFile;
      var next := g.(nextFile := f + 1);
      var file := scan.files[f];
      if !Fails(scan, file) {
        if !file.Opens? || (!scan.stageUnit && file.prims.None?) {
          NextOfItsStage(scan, next);
        } else if !scan.stageUnit {
          TakeOfItsStage(scan, next.(stage := Some(f), position := 0));
        }
      }
    }
  }

  lemma {:induction false} TakeOfItsStage(scan: Scan, g: Global)
    requires GlobalInv(scan, g) && g.stage.Some?
    ensures Take(scan, g).1.Work? ==> OfItsStage(scan, Take(scan, g).1.morsel)
    decreases |scan.files| - g.nextFile, 1
  {
    var prims := scan.files[g.stage.value].prims.value;
    var end := Smaller(g.position + MORSEL_SIZE, |prims|);
    if g.position == end {
      NextOfItsStage(scan, g.(stage := None));
    } else {
      var m := Take(scan, g).1.morsel;
      assert IsRun(m.prims, prims, g.position);
    }
  }

  /** A morsel has 1024 prims of one stage that follow each other there, or fewer at its end (none, if it is of a whole
      stage); and the batches are numbered in the order they are handed out. */
  lemma MorselSizes(scan: Scan, g: Global)
    requires GlobalInv(scan, g)
    ensures var (g', result) := Next(scan, g);
            result.Work? ==>
              && result.morsel.batch == g.nextBatch && g'.nextBatch == g.nextBatch + 1
              && OfItsStage(scan, result.morsel)
              && (scan.stageUnit <==> result.morsel.prims == [])
  {
    NextHands(scan, g);
    NextOfItsStage(scan, g);
  }

  // ---------------------------------------------------------------- the end of a run

  /** How many more times the thread can add a prim of its morsel. */
  function Product(a: nat, b: nat): nat {
    a * b
  }

  function Adds(scan: Scan, l: Local): nat {
    var prims := |Prims(l)|;
    (if l.timeIndex < |scan.times| then Product(|scan.times| - 1 - l.timeIndex, prims) else 0) +
    (if l.nextPrim <= prims then prims - l.nextPrim else 0)
  }

  function Unsent(l: Local): nat {
    if l.rowOffset <= |l.rows| then |l.rows| - l.rowOffset else 0
  }

  function Sum(f: Local -> nat, threads: seq<Local>): nat {
    if threads == [] then 0 else f(threads[0]) + Sum(f, threads[1..])
  }

  lemma {:induction false} SumUpdate(f: Local -> nat, threads: seq<Local>, t: nat, l: Local)
    requires t < |threads|
    ensures Sum(f, threads[t := l]) + f(threads[t]) == Sum(f, threads) + f(l)
  {
    if t == 0 {
      assert threads[t := l][1..] == threads[1..];
    } else {
      assert threads[t := l][1..] == threads[1..][t - 1 := l];
      SumUpdate(f, threads[1..], t - 1, l);
    }
  }

  function AddsLeft(scan: Scan, s: System): nat {
    Sum(l => Adds(scan, l), s.threads)
  }

  function RowsLeft(s: System): nat {
    Sum(l => Unsent(l), s.threads)
  }

  function ThreadsLeft(s: System): nat {
    Sum((l: Local) => if l.status.Running? then 1 else 0, s.threads)
  }

  function UnitsLeft(scan: Scan, s: System): nat
    requires GlobalInv(scan, s.g)
  {
    |Remaining(scan, s.g)|
  }

  /** What is left to do, most significant first. */
  ghost predicate LessLeft(scan: Scan, n: System, s: System)
    requires GlobalInv(scan, n.g) && GlobalInv(scan, s.g)
  {
    || UnitsLeft(scan, n) < UnitsLeft(scan, s)
    || (UnitsLeft(scan, n) == UnitsLeft(scan, s) &&
        (|| AddsLeft(scan, n) < AddsLeft(scan, s)
         || (AddsLeft(scan, n) == AddsLeft(scan, s) &&
             (|| RowsLeft(n) < RowsLeft(s)
              || (RowsLeft(n) == RowsLeft(s) && ThreadsLeft(n) < ThreadsLeft(s))))))
  }

  lemma ProductLess(a: nat, b: nat)
    requires a > 0
    ensures Product(a, b) == Product(a - 1, b) + b
  {
  }

  lemma AddPrimAdds(scan: Scan, l: Local)
    requires WellFormed(scan) && ThreadInv(scan, l) && l.status.Running? && CanAdd(l)
    ensures Adds(scan, AddPrim(scan, l)) + 1 == Adds(scan, l)
  {
    var prims := |Prims(l)|;
    if scan.times != [] && l.timeIndex + 1 < |scan.times| {
      ProductLess(|scan.times| - 1 - l.timeIndex, prims);
    }
  }

  lemma AdvanceAdds(scan: Scan, l: Local)
    requires WellFormed(scan) && ThreadInv(scan, l) && l.status.Running? && !CanAdd(l) && l.rowOffset == |l.rows|
    ensures Adds(scan, l) == 0 && Unsent(l) == 0
  {
    hide Buffered, Produced, UnitOf;
    if scan.times != [] && l.morsel.Some? {
      assert l.timeIndex + 1 == |scan.times|;
    }
  }

  lemma EmitAdds(scan: Scan, l: Local)
    requires LocalOk(scan, l) && l.rowOffset < |l.rows|
    ensures Adds(scan, Emit(scan, l).0) == Adds(scan, l) && Unsent(Emit(scan, l).0) < Unsent(l)
  {
  }

  lemma AdvanceStops(scan: Scan, g: Global, l: Local)
    requires GlobalInv(scan, g)
    ensures var l' := Advance(scan, g, l).1;
            !Next(scan, g).1.Work? ==> Adds(scan, l') == 0 && Unsent(l') == 0 && !l'.status.Running?
  {
  }

  /** Every step of a running thread leaves less to do, so every call of the scan, and every run, ends. */
  lemma StepLeavesLess(scan: Scan, s: System, t: nat)
    requires WellFormed(scan) && SystemInv(scan, s) && IsRunning(s, t)
    ensures var n := StepThread(scan, s, t); GlobalInv(scan, n.g) && LessLeft(scan, n, s)
  {
    var l := s.threads[t];
    var n := StepThread(scan, s, t);
    assert ThreadInv(scan, l);
    SumUpdate(x => Adds(scan, x), s.threads, t, n.threads[t]);
    SumUpdate(x => Unsent(x), s.threads, t, n.threads[t]);
    SumUpdate((x: Local) => if x.status.Running? then 1 else 0, s.threads, t, n.threads[t]);
    hide ThreadInv, SystemInv, Adds, AddPrim, Buffered, Advance, Sum, Remaining, NoneFails;
    if CanAdd(l) {
      AddPrimAdds(scan, l);
    } else if l.rowOffset < |l.rows| {
      EmitAdds(scan, l);
    } else {
      AdvanceHolds(scan, s.g, l);
      AdvanceAdds(scan, l);
      AdvanceStops(scan, s.g, l);
    }
  }

  ghost predicate Stopped(s: System) {
    forall t :: 0 <= t < |s.threads| ==> !s.threads[t].status.Running?
  }

  /** The thread that `pick` chooses next, or another one that is running. */
  ghost function Picked(s: System, pick: System -> nat): (t: nat)
    requires !Stopped(s)
    ensures IsRunning(s, t)
  {
    if IsRunning(s, pick(s)) then pick(s) else
      var t: nat :| t < |s.threads| && s.threads[t].status.Running?; t
  }

  /** Runs the threads to the end, in the order that `pick` chooses. */
  ghost function Drive(scan: Scan, s: System, pick: System -> nat): (end: System)
    requires WellFormed(scan)
    requires SystemInv(scan, s)
    ensures SystemInv(scan, end) && Stopped(end) && |end.threads| == |s.threads|
    decreases UnitsLeft(scan, s), AddsLeft(scan, s), RowsLeft(s), ThreadsLeft(s)
  {
    if Stopped(s) then s else
      var t := Picked(s, pick);
      StepKeeps(scan, s, t);
      StepLeavesLess(scan, s, t);
      Drive(scan, StepThread(scan, s, t), pick)
  }

  lemma AllRowsLast(scan: Scan, units: seq<Unit>, u: Unit)
    ensures AllRows(scan, units + [u]) == AllRows(scan, units) + UnitRows(scan, u)
  {
  }

  lemma AssembledNone(scan: Scan, log: seq<Chunk>, units: seq<Unit>)
    ensures Assembled(log, 0) == AllRows(scan, units[..0])
  {
  }

  lemma AssembledLast(log: seq<Chunk>, n: nat)
    requires n > 0
    ensures Assembled(log, n) == Assembled(log, n - 1) + Emitted(log, n - 1)
  {
  }

  lemma TakeOneMore(units: seq<Unit>, n: nat)
    requires 0 < n <= |units|
    ensures units[..n] == units[..n - 1] + [units[n - 1]]
  {
  }

  lemma {:induction false} AssembledRows(scan: Scan, log: seq<Chunk>, units: seq<Unit>, n: nat)
    requires n <= |units|
    requires forall b :: 0 <= b < n ==> Emitted(log, b) == UnitRows(scan, units[b])
    ensures Assembled(log, n) == AllRows(scan, units[..n])
  {
    hide *;
    if n == 0 {
      AssembledNone(scan, log, units);
    } else {
      AssembledLast(log, n);
      AssembledRows(scan, log, units, n - 1);
      AllRowsLast(scan, units[..n - 1], units[n - 1]);
      TakeOneMore(units, n);
    }
  }

  ghost predicate ScanFailed(s: System) {
    exists t :: 0 <= t < |s.threads| && s.threads[t].status.Failed?
  }

  ghost predicate AnyFails(scan: Scan) {
    exists f :: 0 <= f < |scan.files| && Fails(scan, scan.files[f])
  }

  /** Once no thread runs: if none failed, the chunks in batch order are exactly the rows of the sequential walk, none
      lost, repeated or moved; and a thread failed exactly if some file makes the scan fail. */
  lemma StoppedIsSequential(scan: Scan, s: System)
    requires WellFormed(scan) && SystemInv(scan, s) && Stopped(s) && |s.threads| > 0
    ensures ScanFailed(s) <==> AnyFails(scan)
    ensures !ScanFailed(s) ==>
              s.g.nextBatch == |Units(scan, 0)| && Assembled(s.log, s.g.nextBatch) == Sequential(scan)
  {
    hide UnitRows, Emitted, ThreadInv, Produced;
    var units := Units(scan, 0);
    if !ScanFailed(s) {
      assert s.threads[0].status.Finished?;
      assert units[s.g.nextBatch..] == [];
      forall b | 0 <= b < s.g.nextBatch ensures Emitted(s.log, b) == UnitRows(scan, units[b]) {
        assert BatchInv(scan, units, s, b);
      }
      AssembledRows(scan, s.log, units, s.g.nextBatch);
      assert units[..s.g.nextBatch] == units;
    }
  }

  /** For every number of threads, and however they are scheduled, the scan ends, and gives the rows of the sequential
      walk unless a file makes it fail. */
  lemma EveryRunIsSequential(scan: Scan, threads: nat, pick: System -> nat)
    requires WellFormed(scan) && threads > 0
    ensures var end := Drive(scan, Begin(scan, threads), pick);
            if AnyFails(scan) then ScanFailed(end) else Assembled(end.log, end.g.nextBatch) == Sequential(scan)
  {
    hide Begin, Drive, SystemInv, Assembled, Sequential;
    StoppedIsSequential(scan, Drive(scan, Begin(scan, threads), pick));
  }
}
