/** The scan with the state it updates in place. Each method is proved to do what the functions of `UsdScanModel` say; a
    call of the scan function is a sequence of the steps that the threads of `UsdScanTheorems` interleave. */
module UsdScan {
  import opened Wrappers
  import opened UsdRows
  import opened UsdScanModel
  import opened UsdScanProofs
  import opened UsdScanTheorems

  /** Going on from file `before` to file `after` is an error exactly at a file that fails with an IO error that is not
      ignored, or with another error: no such file is passed over. */
  ghost predicate StopsRightly(scan: Scan, before: nat, after: nat, result: NextResult) {
    && before <= after <= |scan.files|
    && (result.Error? ==>
          && before < after
          && (scan.files[after - 1].OtherError? || (scan.files[after - 1].IoError? && !scan.ignoreErrors)))
    && (forall f :: before <= f < after - (if result.Error? then 1 else 0) ==>
          scan.files[f].Opens? || (scan.files[f].IoError? && scan.ignoreErrors))
  }

  lemma NextStopsRightly(scan: Scan, g: Global)
    requires GlobalInv(scan, g)
    ensures StopsRightly(scan, g.nextFile, Next(scan, g).0.nextFile, Next(scan, g).1)
  {
    hide Next, Remaining;
    NextHands(scan, g);
  }

  class GlobalState {
    const scan: Scan
    var nextFile: nat
    var nextBatch: nat
    var stage: Option<nat>
    var position: nat

    ghost function Now(): Global
      reads this
    {
      Global(nextFile, nextBatch, stage, position)
    }

    constructor (scan: Scan)
      ensures this.scan == scan && Now() == Global(0, 0, None, 0)
    {
      this.scan := scan;
      nextFile, nextBatch, stage, position := 0, 0, None, 0;
    }

    /** Takes the next run of prims from the open stage. */
    method TakeRun() returns (prims: seq<Prim>)
      requires GlobalInv(scan, Now()) && stage.Some?
      modifies this`position
      ensures var range := scan.files[stage.value].prims.value;
              var end := Smaller(old(position) + MORSEL_SIZE, |range|);
              position == end && prims == range[old(position)..end]
    {
      var range := scan.files[stage.value].prims.value;
      prims := [];
      while position < |range| && |prims| < MORSEL_SIZE
        invariant old(position) <= position <= |range| && |prims| == position - old(position) <= MORSEL_SIZE
        invariant prims == range[old(position)..position]
        decreases |range| - position
      {
        prims := prims + [range[position]];
        position := position + 1;
      }
    }

    /** UsdScanGlobalState::Next, called under the lock. */
    method Next() returns (result: NextResult)
      requires GlobalInv(scan, Now())
      modifies this
      ensures GlobalInv(scan, Now())
      ensures (Now(), result) == UsdScanModel.Next(scan, old(Now()))
      ensures StopsRightly(scan, old(nextFile), nextFile, result)
    {
      NextStopsRightly(scan, Now());
      hide StopsRightly;
      while true
        invariant GlobalInv(scan, Now())
        invariant UsdScanModel.Next(scan, Now()) == UsdScanModel.Next(scan, old(Now()))
        decreases |scan.files| - nextFile, if stage.Some? then 1 else 0
      {
        if stage.None? {
          if nextFile >= |scan.files| {
            return NoMore;
          }
          var currentFile := nextFile;
          nextFile := nextFile + 1;
          var file := scan.files[currentFile];
          if Fails(scan, file) {
            return Error;
          }
          if !file.Opens? {
            continue;
          }
          if scan.stageUnit {
            nextBatch := nextBatch + 1;
            return Work(Morsel(currentFile, nextBatch - 1, []));
          }
          if file.prims.None? {
            continue;
          }
          stage, position := Some(currentFile), 0;
          assert UsdScanModel.Next(scan, Now()) == UsdScanModel.Next(scan, old(Now()));
        }
        assert UsdScanModel.Next(scan, Now()) == Take(scan, Now());
        var prims := TakeRun();
        if prims == [] {
          stage := None;
          continue;
        }
        nextBatch := nextBatch + 1;
        return Work(Morsel(stage.value, nextBatch - 1, prims));
      }
    }
  }

  /** A row producer that buffers its rows: what it is set to, and the rows. */
  class RowProducer {
    const scan: Scan
    var stage: Option<nat>
    var time: Time
    var rows: seq<Row>

    constructor (scan: Scan)
      ensures this.scan == scan && stage == None && time == scan.time && rows == []
    {
      this.scan := scan;
      stage, time, rows := None, scan.time, [];
    }

    /** The rows of another stage follow: none of the previous stage may be left. */
    method BeginStage(file: nat)
      requires rows == []
      modifies this`stage, this`rows
      ensures stage == Some(file) && rows == if scan.stageUnit then scan.stageRows(file) else []
    {
      stage := Some(file);
      if scan.stageUnit {
        rows := scan.stageRows(file);
      }
    }

    method SetTime(t: Time)
      modifies this`time
      ensures time == t
    {
      time := t;
    }

    method AddPrim(prim: Prim)
      requires stage.Some?
      modifies this`rows
      ensures rows == old(rows) + scan.primRows(stage.value, time, prim)
    {
      rows := rows + scan.primRows(stage.value, time, prim);
    }

    method Clear()
      modifies this`rows
      ensures rows == []
    {
      rows := [];
    }
  }

  lemma EmitThread(scan: Scan, l: Local)
    requires ThreadInv(scan, l) && l.rowOffset < |l.rows|
    ensures ThreadInv(scan, Emit(scan, l).0)
  {
  }

  /** A step that does not end the call leaves less for it to do. */
  lemma StepHolds(scan: Scan, g: Global, l: Local)
    requires WellFormed(scan) && GlobalInv(scan, g) && ThreadInv(scan, l) && l.status.Running?
    ensures var (g', l', chunk) := Step(scan, g, l);
            && GlobalInv(scan, g') && ThreadInv(scan, l')
            && (chunk.None? && l'.status.Running? ==>
                  |Remaining(scan, g')| < |Remaining(scan, g)| ||
                  (g' == g && Adds(scan, l') < Adds(scan, l)))
  {
    hide Advance, AddPrim, Buffered, Produced, Remaining, Adds, NoneFails;
    if CanAdd(l) {
      AddPrimHolds(scan, l);
      AddPrimAdds(scan, l);
    } else if l.rowOffset < |l.rows| {
      EmitThread(scan, l);
    } else {
      AdvanceHolds(scan, g, l);
    }
  }

  /** What one call of the scan function does: steps of its thread, until it emits a chunk or stops. */
  ghost function Call(scan: Scan, g: Global, l: Local): (Global, Local, Option<Chunk>)
    requires WellFormed(scan) && GlobalInv(scan, g) && ThreadInv(scan, l) && l.status.Running?
    decreases |Remaining(scan, g)|, Adds(scan, l)
  {
    StepHolds(scan, g, l);
    var (g', l', chunk) := Step(scan, g, l);
    if chunk.Some? || !l'.status.Running? then (g', l', chunk) else Call(scan, g', l')
  }

  class LocalState {
    const scan: Scan
    const producer: RowProducer
    var status: Status
    var morsel: Option<Morsel>
    var nextPrim: nat
    var timeIndex: nat
    var rowTimes: seq<real>
    var rowOffset: nat

    ghost function Now(): Local
      reads this, producer
    {
      Local(status, producer.stage, producer.time, producer.rows, morsel, nextPrim, timeIndex, rowTimes, rowOffset)
    }

    ghost predicate Valid()
      reads this, producer
    {
      producer.scan == scan && WellFormed(scan) && ThreadInv(scan, Now())
    }

    constructor (scan: Scan)
      requires WellFormed(scan)
      ensures this.scan == scan && fresh(producer) && Valid() && Now() == InitLocal(scan)
    {
      this.scan := scan;
      producer := new RowProducer(scan);
      status, morsel, nextPrim, timeIndex, rowTimes, rowOffset := Running, None, 0, 0, [], 0;
    }

    /** One turn of the loop that fills the row buffer. */
    method AddNext()
      requires Valid() && LocalOk(scan, Now()) && CanAdd(Now())
      modifies this`nextPrim, this`timeIndex, this`rowTimes, producer
      ensures Now() == AddPrim(scan, old(Now()))
    {
      hide ThreadInv;
      var prims := morsel.value.prims;
      if scan.times == [] {
        producer.AddPrim(prims[nextPrim]);
        nextPrim := nextPrim + 1;
        return;
      }
      var time := scan.times[timeIndex];
      if nextPrim == 0 {
        producer.SetTime(TimeCode(time));
      }
      producer.AddPrim(prims[nextPrim]);
      nextPrim := nextPrim + 1;
      rowTimes := rowTimes + seq(|producer.rows| - |rowTimes|, i => time);
      if nextPrim == |prims| && timeIndex + 1 < |scan.times| {
        timeIndex, nextPrim := timeIndex + 1, 0;
      }
    }

    /** Moves to the next morsel. The producer is cleared before it is told of another stage. */
    method MoveOn(g: GlobalState)
      requires Valid() && g.scan == scan && GlobalInv(scan, g.Now())
      modifies this, producer, g
      ensures GlobalInv(scan, g.Now())
      ensures (g.Now(), Now()) == Advance(scan, old(g.Now()), old(Now()))
    {
      hide ThreadInv, UsdScanModel.Next, GlobalInv;
      producer.Clear();
      rowOffset, nextPrim, timeIndex, rowTimes := 0, 0, 0, [];
      var previousFile := if morsel.None? then None else Some(morsel.value.file);
      if morsel.Some? {
        morsel := Some(morsel.value.(prims := []));
      }
      var result := g.Next();
      match result
      case NoMore => status := Finished;
      case Error => status := Failed;
      case Work(m) =>
        morsel := Some(m);
        if scan.stageUnit || previousFile != Some(m.file) {
          producer.BeginStage(m.file);
        }
    }

    /** UsdScanFunction: the next chunk of this thread's rows, or None once it has stopped. */
    method Scan(g: GlobalState) returns (chunk: Option<Chunk>)
      requires Valid() && status.Running? && g.scan == scan && GlobalInv(scan, g.Now())
      modifies this, producer, g
      ensures Valid() && GlobalInv(scan, g.Now())
      ensures (g.Now(), Now(), chunk) == Call(scan, old(g.Now()), old(Now()))
      ensures chunk.None? <==> !status.Running?
    {
      hide ThreadInv, GlobalInv, Adds, Remaining, AddPrim, Advance, Buffered;
      while true
        invariant Valid() && GlobalInv(scan, g.Now()) && status.Running?
        invariant Call(scan, g.Now(), Now()) == Call(scan, old(g.Now()), old(Now()))
        decreases |Remaining(scan, g.Now())|, Adds(scan, Now())
      {
        OkOf(scan, Now());
        StepHolds(scan, g.Now(), Now());
        if CanAddNow() {
          AddNext();
        } else if rowOffset < |producer.rows| {
          chunk := EmitNext();
          return;
        } else {
          MoveOn(g);
          if !status.Running? {
            return None;
          }
        }
      }
    }

    predicate CanAddNow()
      reads this, producer
      requires rowOffset <= |producer.rows|
      ensures CanAddNow() == CanAdd(Now())
    {
      |producer.rows| - rowOffset < VECTOR_SIZE && morsel.Some? && nextPrim < |morsel.value.prims|
    }

    /** Emits the next chunk of buffered rows, with the batch index of their morsel. */
    method EmitNext() returns (chunk: Option<Chunk>)
      requires Valid() && LocalOk(scan, Now()) && rowOffset < |producer.rows|
      modifies this`rowOffset
      ensures chunk.Some? && (Now(), chunk.value) == Emit(scan, old(Now()))
    {
      hide ThreadInv;
      var count := Smaller(|producer.rows| - rowOffset, VECTOR_SIZE);
      var rows: seq<OutRow> := [];
      for i := 0 to count
        invariant rows == Buffered(scan, Now())[rowOffset..rowOffset + i]
      {
        var time := if scan.times == [] then None else Some(rowTimes[rowOffset + i]);
        rows := rows + [OutRow(producer.rows[rowOffset + i], time)];
      }
      chunk := Some(Chunk(morsel.value.batch, rows));
      rowOffset := rowOffset + count;
    }
  }
}
