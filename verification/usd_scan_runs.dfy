/** Whole runs of a scan: every schedule keeps what has been emitted a prefix of the sequential walk batch by batch,
    every run ends, and it ends with exactly the rows of that walk. */
module UsdScanRuns {
  import opened UsdScanModel
  import opened UsdScanProofs

  // ---------------------------------------------------------------- one step of one thread

  /** A thread that leaves a batch has emitted all of it. */
  lemma BatchLeft(scan: Scan, units: seq<Unit>, s: System, n: System, t: nat, b: nat)
    requires SystemOk(scan, s) && SystemOk(scan, n) && b < |units| && t < |s.threads| == |n.threads|
    requires n.threads == s.threads[t := n.threads[t]] && n.log == s.log
    requires BatchInv(scan, units, s, b) && !Holds(n.threads[t], b)
    requires Holds(s.threads[t], b) ==>
               Emitted(s.log, b) == UnitRows(scan, units[b]) &&
               forall u :: 0 <= u < |s.threads| && u != t ==> !Holds(s.threads[u], b)
    ensures BatchInv(scan, units, n, b)
  {
    hide LocalOk, UnitRows, Emitted, GlobalInv, Buffered;
    forall u | 0 <= u < |s.threads| && u != t ensures n.threads[u] == s.threads[u] {}
    if !Holds(s.threads[t], b) {
      assert (forall u :: 0 <= u < |n.threads| ==> !Holds(n.threads[u], b)) ==>
             (forall u :: 0 <= u < |s.threads| ==> !Holds(s.threads[u], b));
    }
  }

  lemma OthersElsewhere(scan: Scan, s: System, t: nat, b: nat)
    requires ThreadsInv(scan, s) && t < |s.threads| && Holds(s.threads[t], b)
    ensures forall u :: 0 <= u < |s.threads| && u != t ==> !Holds(s.threads[u], b)
  {
  }

  lemma AdvanceBatch(scan: Scan, s: System, t: nat, b: nat)
    requires WellFormed(scan) && SystemInv(scan, s) && IsRunning(s, t) && b < s.g.nextBatch
    requires !CanAdd(s.threads[t]) && s.threads[t].rowOffset == |s.threads[t].rows|
    ensures var (g, l) := Advance(scan, s.g, s.threads[t]);
            var n := System(g, s.threads[t := l], s.log);
            SystemOk(scan, n) && BatchInv(scan, Units(scan, 0), n, b)
  {
    var was := s.threads[t];
    var (g, l) := Advance(scan, s.g, was);
    var n := System(g, s.threads[t := l], s.log);
    assert ThreadInv(scan, was) && BatchInv(scan, Units(scan, 0), s, b);
    if Holds(was, b) {
      Exhausted(scan, was);
      OthersElsewhere(scan, s, t, b);
      assert Buffered(scan, was)[..was.rowOffset] == Buffered(scan, was);
    }
    hide ThreadInv, LocalOk, UnitRows, Emitted, Units, Remaining, NoneFails, GlobalInv, FailureInv, Advance, Buffered,
         BatchInv;
    AdvanceHolds(scan, s.g, was);
    OkOf(scan, l);
    BatchLeft(scan, Units(scan, 0), s, n, t, b);
  }

  /** The batch that a thread starts has no rows yet. */
  lemma BatchStarted(scan: Scan, s: System, n: System, t: nat)
    requires SystemInv(scan, s) && SystemOk(scan, n) && t < |s.threads| == |n.threads|
    requires n.threads == s.threads[t := n.threads[t]] && n.log == s.log
    requires s.g.nextBatch < |Units(scan, 0)|
    requires Holds(n.threads[t], s.g.nextBatch) && n.threads[t].rowOffset == 0
    requires UnitOf(n.threads[t].morsel.value) == Units(scan, 0)[s.g.nextBatch]
    ensures BatchInv(scan, Units(scan, 0), n, s.g.nextBatch)
  {
    EmittedNone(s.log, s.g.nextBatch);
    hide ThreadInv, LocalOk, UnitRows, Emitted, Units, Remaining, NoneFails, GlobalInv, FailureInv, Buffered;
    forall u | 0 <= u < |s.threads| && u != t ensures !Holds(n.threads[u], s.g.nextBatch) {
      assert n.threads[u] == s.threads[u];
    }
  }

  lemma NoneFailsTogether(scan: Scan, a: nat, b: nat)
    requires a <= b <= |scan.files|
    ensures NoneFails(scan, 0, b) <==> NoneFails(scan, 0, a) && NoneFails(scan, a, b)
  {
  }

  lemma AdvanceFailures(scan: Scan, s: System, t: nat, g: Global, l: Local)
    requires SystemOk(scan, s) && FailureInv(scan, s) && IsRunning(s, t)
    requires GlobalInv(scan, g) && LocalOk(scan, l) && Hands(scan, s.g, g, Next(scan, s.g).1)
    requires match Next(scan, s.g).1
             case NoMore => l.status.Finished?
             case Error => l.status.Failed?
             case Work(m) => l.status.Running?
    ensures FailureInv(scan, System(g, s.threads[t := l], s.log))
  {
    hide LocalOk, Remaining, Next;
    var n := System(g, s.threads[t := l], s.log);
    NoneFailsTogether(scan, s.g.nextFile, g.nextFile);
    forall u | 0 <= u < |s.threads| && u != t ensures n.threads[u] == s.threads[u] {}
    assert n.threads[t] == l;
    if l.status.Failed? {
      assert !NoneFails(scan, 0, g.nextFile);
    }
  }

  lemma AdvanceThreads(scan: Scan, s: System, n: System, t: nat)
    requires ThreadsInv(scan, s) && t < |s.threads| == |n.threads|
    requires n.threads == s.threads[t := n.threads[t]] && ThreadInv(scan, n.threads[t])
    requires n.g.nextBatch == s.g.nextBatch + (if n.threads[t].status.Running? then 1 else 0)
    requires n.threads[t].status.Running? ==> Holds(n.threads[t], s.g.nextBatch)
    ensures ThreadsInv(scan, n)
  {
  }

  lemma AdvanceUnits(units: seq<Unit>, n: nat, first: Unit, rest: seq<Unit>)
    requires n <= |units| && units[n..] == [first] + rest
    ensures n < |units| && units[n] == first && units[n + 1..] == rest
  {
  }

  lemma HoldsNew(l: Local, batch: nat)
    requires AtWork(l) && l.morsel.value.batch == batch
    ensures Holds(l, batch)
  {
  }

  lemma AdvanceKeeps(scan: Scan, s: System, t: nat)
    requires WellFormed(scan) && SystemInv(scan, s) && IsRunning(s, t)
    requires !CanAdd(s.threads[t]) && s.threads[t].rowOffset == |s.threads[t].rows|
    ensures var (g, l) := Advance(scan, s.g, s.threads[t]);
            SystemInv(scan, System(g, s.threads[t := l], s.log))
  {
    hide LocalOk, UnitRows, Emitted, Units, NoneFails, FailureInv, Advance, Buffered, BatchInv, Remaining, Next, Holds;
    var was := s.threads[t];
    assert ThreadInv(scan, was);
    AdvanceHolds(scan, s.g, was);
    var (g, l) := Advance(scan, s.g, was);
    var n := System(g, s.threads[t := l], s.log);
    var units := Units(scan, 0);
    OkOf(scan, l);
    AdvanceFailures(scan, s, t, g, l);
    hide ThreadInv, GlobalInv;
    forall b | 0 <= b < s.g.nextBatch ensures BatchInv(scan, units, n, b) {
      AdvanceBatch(scan, s, t, b);
    }
    hide ThreadsInv;
    if l.status.Running? {
      AdvanceUnits(units, s.g.nextBatch, UnitOf(l.morsel.value), Remaining(scan, g));
      HoldsNew(l, s.g.nextBatch);
      BatchStarted(scan, s, n, t);
    }
    AdvanceThreads(scan, s, n, t);
  }

  /** Emitting takes the next rows of the buffer, at most VECTOR_SIZE of them and at least one; fewer than VECTOR_SIZE
      only if they are the last of the morsel. */
  lemma EmitHolds(scan: Scan, l: Local)
    requires WellFormed(scan) && ThreadInv(scan, l) && l.status.Running?
    requires !CanAdd(l) && l.rowOffset < |l.rows|
    ensures var (l', c) := Emit(scan, l);
            && ThreadInv(scan, l') && l'.status == l.status && l'.morsel == l.morsel
            && c.batch == l.morsel.value.batch
            && 1 <= |c.rows| <= VECTOR_SIZE
            && Buffered(scan, l')[..l'.rowOffset] == Buffered(scan, l)[..l.rowOffset] + c.rows
            && (|c.rows| < VECTOR_SIZE ==>
                  Buffered(scan, l')[..l'.rowOffset] == UnitRows(scan, UnitOf(l.morsel.value)))
  {
    var (l', c) := Emit(scan, l);
    assert Buffered(scan, l') == Buffered(scan, l);
    if |c.rows| < VECTOR_SIZE {
      Exhausted(scan, l);
      assert Buffered(scan, l')[..l'.rowOffset] == Buffered(scan, l);
    }
  }

  lemma EmitKeeps(scan: Scan, s: System, t: nat)
    requires WellFormed(scan) && SystemInv(scan, s) && IsRunning(s, t)
    requires !CanAdd(s.threads[t]) && s.threads[t].rowOffset < |s.threads[t].rows|
    ensures SystemInv(scan, StepThread(scan, s, t))
  {
    var l := s.threads[t];
    var (l', c) := Emit(scan, l);
    var b := l.morsel.value.batch;
    assert ThreadInv(scan, l) && BatchInv(scan, Units(scan, 0), s, b) && Holds(l, b);
    EmitHolds(scan, l);
    forall x ensures Emitted(s.log + [c], x) == Emitted(s.log, x) + (if c.batch == x then c.rows else []) {
      EmittedAppend(s.log, c, x);
    }
    hide ThreadInv, BatchInv, SystemInv, Emit, Buffered, Emitted;
    assert forall x: seq<OutRow> :: x + [] == x;
    LocalStepKeeps(scan, s, t, l', s.log + [c]);
  }

  lemma StepKeeps(scan: Scan, s: System, t: nat)
    requires WellFormed(scan) && SystemInv(scan, s)
    ensures SystemInv(scan, StepThread(scan, s, t))
  {
    if IsRunning(s, t) {
      var l := s.threads[t];
      assert ThreadInv(scan, l);
      if CanAdd(l) {
        AddPrimHolds(scan, l);
        var b := l.morsel.value.batch;
        assert BatchInv(scan, Units(scan, 0), s, b) && Holds(l, b);
        hide ThreadInv, BatchInv, SystemInv, AddPrim, Buffered, Emitted;
        LocalStepKeeps(scan, s, t, AddPrim(scan, l), s.log);
      } else if l.rowOffset < |l.rows| {
        EmitKeeps(scan, s, t);
      } else {
        hide SystemInv, ThreadInv;
        AdvanceKeeps(scan, s, t);
      }
    }
  }
}
