/** However the threads are scheduled, the scan emits the rows of one sequential walk. */
module UsdScanProofs {
  import opened Wrappers
  import opened UsdRows
  import opened UsdScanModel

  // ---------------------------------------------------------------- handing out morsels

  /** The units that have not been handed out. */
  function Remaining(scan: Scan, g: Global): seq<Unit>
    requires GlobalInv(scan, g)
  {
    if g.stage.None? then Units(scan, g.nextFile)
    else Runs(g.stage.value, scan.files[g.stage.value].prims.value, g.position) + Units(scan, g.nextFile)
  }

  /** None of the files from `a` to `b` makes the scan fail. */
  ghost predicate NoneFails(scan: Scan, a: nat, b: nat)
    requires b <= |scan.files|
  {
    forall f :: a <= f < b ==> !Fails(scan, scan.files[f])
  }

  /** Next hands out the first of the remaining units, skipping files that cannot be read and files without prims to
      scan; it fails at the first file that makes the scan fail, and ends when no unit remains. */
  ghost predicate Hands(scan: Scan, g: Global, g': Global, result: NextResult)
    requires GlobalInv(scan, g) && GlobalInv(scan, g')
  {
    && g.nextFile <= g'.nextFile
    && match result
       case NoMore =>
         && Remaining(scan, g) == [] && Remaining(scan, g') == [] && g'.nextBatch == g.nextBatch
         && g'.nextFile == |scan.files| && NoneFails(scan, g.nextFile, g'.nextFile)
       case Error =>
         && Remaining(scan, g) == Remaining(scan, g') && g'.nextBatch == g.nextBatch
         && g.nextFile < g'.nextFile && Fails(scan, scan.files[g'.nextFile - 1])
         && NoneFails(scan, g.nextFile, g'.nextFile - 1)
       case Work(m) =>
         && Remaining(scan, g) == [Unit(m.file, m.prims)] + Remaining(scan, g')
         && m.batch == g.nextBatch && g'.nextBatch == g.nextBatch + 1
         && NoneFails(scan, g.nextFile, g'.nextFile)
         && |m.prims| <= MORSEL_SIZE && (scan.stageUnit <==> m.prims == [])
  }

  /** A file that is passed over. */
  lemma HandsOver(scan: Scan, g: Global, next: Global, g': Global, result: NextResult)
    requires GlobalInv(scan, g) && GlobalInv(scan, next) && GlobalInv(scan, g')
    requires g.nextFile < |scan.files| && next.nextFile == g.nextFile + 1 && next.nextBatch == g.nextBatch
    requires !Fails(scan, scan.files[g.nextFile]) && Remaining(scan, g) == Remaining(scan, next)
    requires Hands(scan, next, g', result)
    ensures Hands(scan, g, g', result)
  {
    hide Remaining, Fails, GlobalInv;
  }

  /** The file that Next opens when no stage is open. */
  lemma FileRemaining(scan: Scan, g: Global)
    requires GlobalInv(scan, g) && g.stage.None? && g.nextFile < |scan.files|
    ensures var f := g.nextFile;
            var next := g.(nextFile := f + 1);
            var file := scan.files[f];
            && GlobalInv(scan, next)
            && (if file.Opens? && scan.stageUnit then
                  Remaining(scan, g) == [Unit(f, [])] + Remaining(scan, next)
                else if file.Opens? && file.prims.Some? then
                  var started := next.(stage := Some(f), position := 0);
                  GlobalInv(scan, started) && Remaining(scan, g) == Remaining(scan, started)
                else Remaining(scan, g) == Remaining(scan, next))
  {
  }

  lemma {:induction false} NextHands(scan: Scan, g: Global)
    requires GlobalInv(scan, g)
    ensures GlobalInv(scan, Next(scan, g).0)
    ensures Hands(scan, g, Next(scan, g).0, Next(scan, g).1)
    decreases |scan.files| - g.nextFile, if g.stage.Some? then 2 else 0
  {
    hide Take;
    if g.stage.Some? {
      TakeHands(scan, g);
    } else if g.nextFile < |scan.files| {
      FileRemaining(scan, g);
      hide Remaining, Units, FileUnits, Runs;
      var f := g.nextFile;
      var next := g.(nextFile := f + 1);
      var file := scan.files[f];
      if !Fails(scan, file) {
        if !file.Opens? || (!scan.stageUnit && file.prims.None?) {
          NextHands(scan, next);
          HandsOver(scan, g, next, Next(scan, next).0, Next(scan, next).1);
        } else if !scan.stageUnit {
          var started := next.(stage := Some(f), position := 0);
          TakeHands(scan, started);
          HandsOver(scan, g, started, Take(scan, started).0, Take(scan, started).1);
        }
      }
    }
  }

  /** The run of prims that Take takes from the open stage. */
  lemma RunRemaining(scan: Scan, g: Global)
    requires GlobalInv(scan, g) && g.stage.Some?
    ensures var prims := scan.files[g.stage.value].prims.value;
            var end := Smaller(g.position + MORSEL_SIZE, |prims|);
            var rest := if g.position == end then g.(stage := None)
                        else g.(position := end, nextBatch := g.nextBatch + 1);
            && GlobalInv(scan, rest)
            && Remaining(scan, g) ==
                 (if g.position == end then [] else [Unit(g.stage.value, prims[g.position..end])]) +
                 Remaining(scan, rest)
  {
  }

  lemma TakeUnfolds(scan: Scan, g: Global)
    requires GlobalInv(scan, g) && g.stage.Some?
    ensures var prims := scan.files[g.stage.value].prims.value;
            var end := Smaller(g.position + MORSEL_SIZE, |prims|);
            Take(scan, g) ==
            if g.position == end then Next(scan, g.(stage := None))
            else (g.(position := end, nextBatch := g.nextBatch + 1),
                  Work(Morsel(g.stage.value, g.nextBatch, prims[g.position..end])))
  {
    hide Next;
  }

  lemma {:induction false} TakeHands(scan: Scan, g: Global)
    requires GlobalInv(scan, g) && g.stage.Some?
    ensures GlobalInv(scan, Take(scan, g).0)
    ensures Hands(scan, g, Take(scan, g).0, Take(scan, g).1)
    decreases |scan.files| - g.nextFile, 1
  {
    hide Remaining, Fails, Next, Take, Runs, Units;
    RunRemaining(scan, g);
    TakeUnfolds(scan, g);
    var prims := scan.files[g.stage.value].prims.value;
    var end := Smaller(g.position + MORSEL_SIZE, |prims|);
    if g.position == end {
      NextHands(scan, g.(stage := None));
      assert [] + Remaining(scan, g.(stage := None)) == Remaining(scan, g.(stage := None));
    }
  }

  // ---------------------------------------------------------------- one thread

  /** The rows of a unit that are produced once the first `nextPrim` prims were added at time number `timeIndex`. */
  function Produced(scan: Scan, u: Unit, timeIndex: nat, nextPrim: nat): seq<OutRow>
    requires nextPrim <= |u.prims| && (scan.times != [] ==> timeIndex < |scan.times|)
  {
    if scan.stageUnit then Tag(scan.stageRows(u.file), None)
    else if scan.times == [] then PassRows(scan, u.file, scan.time, None, u.prims[..nextPrim])
    else TimesRows(scan, u.file, scan.times[..timeIndex], u.prims) +
         PassRows(scan, u.file, TimeCode(scan.times[timeIndex]), Some(scan.times[timeIndex]), u.prims[..nextPrim])
  }

  function UnitOf(m: Morsel): Unit {
    Unit(m.file, m.prims)
  }

  /** The buffered rows are what the thread has produced of its morsel so far: each row was made with the producer set
      to the time that is recorded for it. */
  ghost predicate ThreadInv(scan: Scan, l: Local) {
    && LocalOk(scan, l)
    && (scan.times == [] ==> l.time == scan.time)
    && (l.status.Running? && l.morsel.Some? ==>
          var m := l.morsel.value;
          && l.stage == Some(m.file) && l.nextPrim <= |m.prims|
          && (scan.stageUnit <==> m.prims == []) && |m.prims| <= MORSEL_SIZE
          && (scan.times != [] && l.nextPrim > 0 ==> l.time == TimeCode(scan.times[l.timeIndex]))
          && (scan.times != [] && l.nextPrim == |m.prims| ==> l.timeIndex + 1 == |scan.times|)
          && Buffered(scan, l) == Produced(scan, UnitOf(m), l.timeIndex, l.nextPrim))
  }

  lemma TagAppend(a: seq<Row>, b: seq<Row>, time: Option<real>)
    ensures Tag(a + b, time) == Tag(a, time) + Tag(b, time)
  {
  }

  lemma PassAppend(scan: Scan, file: nat, time: Time, tag: Option<real>, prims: seq<Prim>, n: nat)
    requires n < |prims|
    ensures PassRows(scan, file, time, tag, prims[..n + 1]) ==
            PassRows(scan, file, time, tag, prims[..n]) + Tag(scan.primRows(file, time, prims[n]), tag)
  {
    assert prims[..n + 1][..n] == prims[..n];
  }

  lemma TimesAppend(scan: Scan, file: nat, prims: seq<Prim>, n: nat)
    requires n < |scan.times|
    ensures TimesRows(scan, file, scan.times[..n + 1], prims) ==
            TimesRows(scan, file, scan.times[..n], prims) +
            PassRows(scan, file, TimeCode(scan.times[n]), Some(scan.times[n]), prims)
  {
    assert scan.times[..n + 1][..n] == scan.times[..n];
  }

  lemma AddWithoutTimes(scan: Scan, l: Local)
    requires WellFormed(scan) && ThreadInv(scan, l) && l.status.Running? && CanAdd(l) && scan.times == []
    ensures var l' := AddPrim(scan, l);
            ThreadInv(scan, l') && Buffered(scan, l) <= Buffered(scan, l')
  {
    var m := l.morsel.value;
    TagAppend(l.rows, scan.primRows(m.file, scan.time, m.prims[l.nextPrim]), None);
    PassAppend(scan, m.file, scan.time, None, m.prims, l.nextPrim);
  }

  lemma BufferedAppend(scan: Scan, l: Local, l': Local, added: seq<Row>, time: real)
    requires scan.times != [] && |l.rowTimes| == |l.rows|
    requires l'.rows == l.rows + added && l'.rowTimes == l.rowTimes + seq(|added|, i => time)
    ensures Buffered(scan, l') == Buffered(scan, l) + Tag(added, Some(time))
  {
  }

  /** What adding one more prim produces. */
  lemma ProducedNext(scan: Scan, u: Unit, timeIndex: nat, n: nat)
    requires n < |u.prims| && timeIndex < |scan.times| && !scan.stageUnit
    ensures var time := scan.times[timeIndex];
            Produced(scan, u, timeIndex, n + 1) ==
            Produced(scan, u, timeIndex, n) + Tag(scan.primRows(u.file, TimeCode(time), u.prims[n]), Some(time))
  {
    var time := scan.times[timeIndex];
    PassAppend(scan, u.file, TimeCode(time), Some(time), u.prims, n);
  }

  /** The end of one pass is the start of the next. */
  lemma ProducedTurn(scan: Scan, u: Unit, timeIndex: nat)
    requires timeIndex + 1 < |scan.times| && !scan.stageUnit
    ensures Produced(scan, u, timeIndex, |u.prims|) == Produced(scan, u, timeIndex + 1, 0)
  {
    TimesAppend(scan, u.file, u.prims, timeIndex);
    assert u.prims[..|u.prims|] == u.prims && u.prims[..0] == [];
  }

  lemma AddedWithTimes(scan: Scan, l: Local)
    requires WellFormed(scan) && ThreadInv(scan, l) && l.status.Running? && CanAdd(l) && scan.times != []
    ensures var m := l.morsel.value;
            var time := scan.times[l.timeIndex];
            var added := scan.primRows(m.file, TimeCode(time), m.prims[l.nextPrim]);
            var l' := AddPrim(scan, l);
            var turn := l.nextPrim + 1 == |m.prims| && l.timeIndex + 1 < |scan.times|;
            l' == l.(time := TimeCode(time), rows := l.rows + added, rowTimes := l.rowTimes + seq(|added|, i => time),
                     nextPrim := if turn then 0 else l.nextPrim + 1,
                     timeIndex := if turn then l.timeIndex + 1 else l.timeIndex)
  {
    hide Buffered, Produced;
  }

  lemma AddWithTimes(scan: Scan, l: Local)
    requires WellFormed(scan) && ThreadInv(scan, l) && l.status.Running? && CanAdd(l) && scan.times != []
    ensures var l' := AddPrim(scan, l);
            ThreadInv(scan, l') && Buffered(scan, l) <= Buffered(scan, l')
  {
    hide Buffered, Tag, Produced, AddPrim;
    AddedWithTimes(scan, l);
    var m := l.morsel.value;
    var time := scan.times[l.timeIndex];
    var l' := AddPrim(scan, l);
    BufferedAppend(scan, l, l', scan.primRows(m.file, TimeCode(time), m.prims[l.nextPrim]), time);
    ProducedNext(scan, UnitOf(m), l.timeIndex, l.nextPrim);
    if l'.nextPrim == 0 {
      ProducedTurn(scan, UnitOf(m), l.timeIndex);
    }
  }

  lemma OkOf(scan: Scan, l: Local)
    requires ThreadInv(scan, l)
    ensures LocalOk(scan, l)
  {
  }

  /** Adding a prim appends its rows, made at the time of the current pass. */
  lemma AddPrimHolds(scan: Scan, l: Local)
    requires WellFormed(scan) && ThreadInv(scan, l) && l.status.Running? && CanAdd(l)
    ensures var l' := AddPrim(scan, l);
            && ThreadInv(scan, l') && l'.morsel == l.morsel && l'.status == l.status && l'.rowOffset == l.rowOffset
            && Buffered(scan, l) <= Buffered(scan, l')
  {
    hide Buffered, ThreadInv;
    assert LocalOk(scan, l) by { OkOf(scan, l); }
    if scan.times == [] { AddWithoutTimes(scan, l); } else { AddWithTimes(scan, l); }
  }

  /** A thread that can neither add nor emit has produced, and emitted, all of its unit. */
  lemma Exhausted(scan: Scan, l: Local)
    requires WellFormed(scan) && ThreadInv(scan, l) && l.status.Running? && l.morsel.Some?
    requires l.nextPrim == |l.morsel.value.prims|
    ensures Buffered(scan, l) == UnitRows(scan, UnitOf(l.morsel.value))
  {
    var m := l.morsel.value;
    assert m.prims[..l.nextPrim] == m.prims;
    if scan.times != [] {
      TimesAppend(scan, m.file, m.prims, l.timeIndex);
      assert scan.times[..l.timeIndex + 1] == scan.times;
    }
  }

  lemma AdvanceHolds(scan: Scan, g: Global, l: Local)
    requires WellFormed(scan) && GlobalInv(scan, g) && ThreadInv(scan, l) && l.status.Running?
    requires l.morsel.None? || scan.stageUnit || l.stage == Some(l.morsel.value.file)
    ensures var (g', l') := Advance(scan, g, l);
            && GlobalInv(scan, g') && ThreadInv(scan, l') && l'.rowOffset == 0
            && Hands(scan, g, g', Next(scan, g).1)
            && (match Next(scan, g).1
                case NoMore => l'.status.Finished?
                case Error => l'.status.Failed?
                case Work(m) => l'.status.Running? && l'.morsel == Some(m))
  {
    NextHands(scan, g);
    var (g', l') := Advance(scan, g, l);
    if l'.status.Running? {
      var m := l'.morsel.value;
      assert m.prims[..0] == [] && scan.times[..0] == [];
    }
  }

  // ---------------------------------------------------------------- all threads

  predicate AtWork(l: Local) {
    l.status.Running? && l.morsel.Some?
  }

  predicate Holds(l: Local, batch: nat) {
    AtWork(l) && l.morsel.value.batch == batch
  }

  /** What was emitted of a batch: what its thread has emitted, or all of it once no thread is at it. */
  ghost predicate BatchInv(scan: Scan, units: seq<Unit>, s: System, batch: nat)
    requires SystemOk(scan, s) && batch < |units|
  {
    && (forall t :: 0 <= t < |s.threads| && Holds(s.threads[t], batch) ==>
          && UnitOf(s.threads[t].morsel.value) == units[batch]
          && Emitted(s.log, batch) == Buffered(scan, s.threads[t])[..s.threads[t].rowOffset])
    && ((forall t :: 0 <= t < |s.threads| ==> !Holds(s.threads[t], batch)) ==>
          Emitted(s.log, batch) == UnitRows(scan, units[batch]))
  }

  ghost predicate FailureInv(scan: Scan, s: System)
    requires SystemOk(scan, s)
  {
    && ((exists t :: 0 <= t < |s.threads| && s.threads[t].status.Failed?) <==> !NoneFails(scan, 0, s.g.nextFile))
    && ((exists t :: 0 <= t < |s.threads| && s.threads[t].status.Finished?) ==>
          s.g.nextFile == |scan.files| && Remaining(scan, s.g) == [])
  }

  ghost predicate ThreadsInv(scan: Scan, s: System) {
    && (forall t :: 0 <= t < |s.threads| ==> ThreadInv(scan, s.threads[t]))
    && (forall t, u :: 0 <= t < u < |s.threads| && AtWork(s.threads[t]) && AtWork(s.threads[u]) ==>
          s.threads[t].morsel.value.batch != s.threads[u].morsel.value.batch)
    && (forall t :: 0 <= t < |s.threads| && AtWork(s.threads[t]) ==> s.threads[t].morsel.value.batch < s.g.nextBatch)
  }

  ghost predicate SystemInv(scan: Scan, s: System) {
    var units := Units(scan, 0);
    && SystemOk(scan, s)
    && ThreadsInv(scan, s)
    && s.g.nextBatch <= |units| && units[s.g.nextBatch..] == Remaining(scan, s.g)
    && (forall b :: 0 <= b < s.g.nextBatch ==> BatchInv(scan, units, s, b))
    && (forall c :: c in s.log ==> c.batch < s.g.nextBatch)
    && FailureInv(scan, s)
  }

  lemma StartHolds(scan: Scan, threads: nat)
    requires WellFormed(scan)
    ensures SystemInv(scan, Start(scan, threads))
  {
  }

  lemma EmittedAppend(log: seq<Chunk>, c: Chunk, batch: nat)
    ensures Emitted(log + [c], batch) == Emitted(log, batch) + (if c.batch == batch then c.rows else [])
  {
  }

  lemma {:induction false} EmittedNone(log: seq<Chunk>, batch: nat)
    requires forall c :: c in log ==> c.batch != batch
    ensures Emitted(log, batch) == []
  {
    if log == [] {
    } else {
      assert log[|log| - 1] in log;
      EmittedNone(log[..|log| - 1], batch);
    }
  }

  lemma LocalStepThreads(scan: Scan, s: System, t: nat, l: Local, log: seq<Chunk>)
    requires ThreadsInv(scan, s) && IsRunning(s, t) && s.threads[t].morsel.Some?
    requires ThreadInv(scan, l) && l.status.Running? && l.morsel == s.threads[t].morsel
    ensures ThreadsInv(scan, System(s.g, s.threads[t := l], log))
  {
    hide ThreadInv;
  }

  lemma SameStatus(scan: Scan, s: System, n: System)
    requires SystemOk(scan, s) && SystemOk(scan, n) && n.g == s.g && |n.threads| == |s.threads|
    requires forall u :: 0 <= u < |s.threads| ==> n.threads[u].status == s.threads[u].status
    ensures FailureInv(scan, s) ==> FailureInv(scan, n)
  {
  }

  lemma LocalStepBatches(scan: Scan, s: System, t: nat, l: Local, log: seq<Chunk>)
    requires SystemInv(scan, s) && IsRunning(s, t) && s.threads[t].morsel.Some?
    requires LocalOk(scan, l) && l.status.Running? && l.morsel == s.threads[t].morsel
    requires var b := l.morsel.value.batch;
             && Emitted(log, b) == Buffered(scan, l)[..l.rowOffset]
             && (forall x :: x != b ==> Emitted(log, x) == Emitted(s.log, x))
    ensures var n := System(s.g, s.threads[t := l], log);
            SystemOk(scan, n) && forall b :: 0 <= b < n.g.nextBatch ==> BatchInv(scan, Units(scan, 0), n, b)
  {
    hide ThreadInv, LocalOk, UnitRows, Buffered, Emitted, Units, Remaining, NoneFails, GlobalInv, FailureInv;
    var n := System(s.g, s.threads[t := l], log);
    forall b | 0 <= b < n.g.nextBatch ensures BatchInv(scan, Units(scan, 0), n, b) {
      assert BatchInv(scan, Units(scan, 0), s, b);
      assert forall u :: 0 <= u < |s.threads| ==> (Holds(n.threads[u], b) <==> Holds(s.threads[u], b));
    }
  }

  /** A step within a morsel leaves the other threads and batches alone. */
  lemma LocalStepKeeps(scan: Scan, s: System, t: nat, l: Local, log: seq<Chunk>)
    requires WellFormed(scan) && SystemInv(scan, s) && IsRunning(s, t) && s.threads[t].morsel.Some?
    requires ThreadInv(scan, l) && l.status.Running? && l.morsel == s.threads[t].morsel
    requires var b := l.morsel.value.batch;
             && Emitted(log, b) == Buffered(scan, l)[..l.rowOffset]
             && (forall x :: x != b ==> Emitted(log, x) == Emitted(s.log, x))
             && (forall c :: c in log ==> c in s.log || c.batch == b)
    ensures SystemInv(scan, System(s.g, s.threads[t := l], log))
  {
    var n := System(s.g, s.threads[t := l], log);
    hide ThreadInv, LocalOk, BatchInv, Units, Remaining, NoneFails, GlobalInv, Buffered, Emitted, ThreadsInv,
         FailureInv;
    OkOf(scan, l);
    LocalStepBatches(scan, s, t, l, log);
    LocalStepThreads(scan, s, t, l, log);
    SameStatus(scan, s, n);
  }
}
