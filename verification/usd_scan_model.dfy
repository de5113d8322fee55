/** The scan shared by all table functions: threads take morsels of prims from a common state, and turn them into chunks
    of rows. OpenUSD and the row producers are functions: what opening a file gives, and the rows of a prim at a time.
    */
module UsdScanModel {
  import opened UsdRows
  import opened Wrappers

  const MORSEL_SIZE: nat := 1024
  const VECTOR_SIZE: nat := 2048

  datatype Prim = Prim(path: string)

  /** A row as the scan emits it, with the value of the "time" column (if there is one). */
  datatype OutRow = OutRow(row: Row, time: Option<real>)

  /** What opening a file gives: an IO error, another error, or a stage; `prims` is None if the scan's root prim is not
      in it. */
  datatype File = IoError | OtherError | Opens(prims: Option<seq<Prim>>)

  datatype Scan = Scan(
    files: seq<File>,
    stageUnit: bool,               // one morsel per stage instead of runs of prims
    ignoreErrors: bool,
    time: Time,                    // the time without the "times" option
    times: seq<real>,              // the "times" option (empty without it)
    primRows: (nat, Time, Prim) -> seq<Row>,
    stageRows: nat -> seq<Row>)

  /** Only functions that produce rows per prim take the "times" option. */
  predicate WellFormed(scan: Scan) {
    scan.stageUnit ==> scan.times == []
  }

  predicate Fails(scan: Scan, f: File) {
    f.OtherError? || (f.IoError? && !scan.ignoreErrors)
  }

  // ---------------------------------------------------------------- handing out morsels

  datatype Morsel = Morsel(file: nat, batch: nat, prims: seq<Prim>)

  /** UsdScanGlobalState: `stage` is the file of the open stage. */
  datatype Global = Global(nextFile: nat, nextBatch: nat, stage: Option<nat>, position: nat)

  datatype NextResult = NoMore | Error | Work(morsel: Morsel)

  function Smaller(a: nat, b: nat): nat {
    if a < b then a else b
  }

  predicate GlobalInv(scan: Scan, g: Global) {
    && g.nextFile <= |scan.files|
    && (g.stage.Some? ==>
          g.stage.value < g.nextFile && !scan.stageUnit && scan.files[g.stage.value].Opens? &&
          scan.files[g.stage.value].prims.Some? && g.position <= |scan.files[g.stage.value].prims.value|)
  }

  function Next(scan: Scan, g: Global): (Global, NextResult)
    requires GlobalInv(scan, g)
    decreases |scan.files| - g.nextFile, if g.stage.Some? then 2 else 0
  {
    if g.stage.None? then
      if g.nextFile >= |scan.files| then (g, NoMore) else
        var f := g.nextFile;
        var next := g.(nextFile := f + 1);
        var file := scan.files[f];
        if Fails(scan, file) then (next, Error)
        else if !file.Opens? then Next(scan, next)
        else if scan.stageUnit then
          (next.(nextBatch := g.nextBatch + 1), Work(Morsel(f, g.nextBatch, [])))
        else if file.prims.None? then Next(scan, next)
        else Take(scan, next.(stage := Some(f), position := 0))
    else Take(scan, g)
  }

  /** Takes up to MORSEL_SIZE prims from the open stage, or moves on if none is left. */
  function Take(scan: Scan, g: Global): (Global, NextResult)
    requires GlobalInv(scan, g) && g.stage.Some?
    decreases |scan.files| - g.nextFile, 1
  {
    var prims := scan.files[g.stage.value].prims.value;
    var end := Smaller(g.position + MORSEL_SIZE, |prims|);
    if g.position == end then Next(scan, g.(stage := None))
    else (g.(position := end, nextBatch := g.nextBatch + 1),
          Work(Morsel(g.stage.value, g.nextBatch, prims[g.position..end])))
  }

  // ---------------------------------------------------------------- one thread

  datatype Status = Running | Finished | Failed

  /** UsdScanLocalState, with its row producer: the stage and time the producer is set to, and the rows it buffers. */
  datatype Local = Local(
    status: Status,
    stage: Option<nat>, time: Time, rows: seq<Row>,
    morsel: Option<Morsel>,
    nextPrim: nat, timeIndex: nat, rowTimes: seq<real>, rowOffset: nat)

  function InitLocal(scan: Scan): Local {
    Local(Running, None, scan.time, [], None, 0, 0, [], 0)
  }

  datatype Chunk = Chunk(batch: nat, rows: seq<OutRow>)

  function Prims(l: Local): seq<Prim> {
    if l.morsel.None? then [] else l.morsel.value.prims
  }

  /** Rows with the value of their "time" column. */
  function Tag(rows: seq<Row>, time: Option<real>): seq<OutRow> {
    seq(|rows|, i requires 0 <= i < |rows| => OutRow(rows[i], time))
  }

  /** The rows that a thread buffers, as it emits them. */
  function Buffered(scan: Scan, l: Local): seq<OutRow>
    requires scan.times != [] ==> |l.rowTimes| == |l.rows|
  {
    if scan.times == [] then Tag(l.rows, None)
    else seq(|l.rows|, i requires 0 <= i < |l.rows| => OutRow(l.rows[i], Some(l.rowTimes[i])))
  }

  /** What the loop of UsdScanFunction needs of the local state. */
  predicate LocalOk(scan: Scan, l: Local) {
    && l.rowOffset <= |l.rows|
    && (scan.times != [] ==> |l.rowTimes| == |l.rows| && l.timeIndex < |scan.times|)
    && (l.nextPrim < |Prims(l)| ==> l.stage.Some?)
    && (|l.rows| > 0 ==> l.morsel.Some?)
  }

  predicate CanAdd(l: Local) {
    |l.rows| - l.rowOffset < VECTOR_SIZE && l.nextPrim < |Prims(l)|
  }

  /** Adds the rows of the next prim of the morsel; with "times", the prims are added at each time in turn. */
  function AddPrim(scan: Scan, l: Local): Local
    requires LocalOk(scan, l) && CanAdd(l)
  {
    var prim := Prims(l)[l.nextPrim];
    if scan.times == [] then
      l.(rows := l.rows + scan.primRows(l.stage.value, l.time, prim), nextPrim := l.nextPrim + 1)
    else
      var time := scan.times[l.timeIndex];
      var setTime := if l.nextPrim == 0 then TimeCode(time) else l.time;
      var rows := l.rows + scan.primRows(l.stage.value, setTime, prim);
      var added := l.(time := setTime, rows := rows, nextPrim := l.nextPrim + 1,
                      rowTimes := l.rowTimes + seq(|rows| - |l.rowTimes|, i => time));
      if added.nextPrim == |Prims(l)| && l.timeIndex + 1 < |scan.times|
      then added.(timeIndex := l.timeIndex + 1, nextPrim := 0)
      else added
  }

  /** Emits the next chunk of buffered rows. */
  function Emit(scan: Scan, l: Local): (Local, Chunk)
    requires LocalOk(scan, l) && l.rowOffset < |l.rows|
  {
    var end := l.rowOffset + Smaller(|l.rows| - l.rowOffset, VECTOR_SIZE);
    (l.(rowOffset := end), Chunk(l.morsel.value.batch, Buffered(scan, l)[l.rowOffset..end]))
  }

  /** Moves to the next morsel: the buffered rows are dropped before the producer is told of another stage. */
  function Advance(scan: Scan, g: Global, l: Local): (Global, Local)
    requires GlobalInv(scan, g)
  {
    var empty := if l.morsel.None? then None else Some(l.morsel.value.(prims := []));
    var cleared := l.(rows := [], rowOffset := 0, nextPrim := 0, timeIndex := 0, rowTimes := [], morsel := empty);
    var (g', result) := Next(scan, g);
    match result
    case NoMore => (g', cleared.(status := Finished))
    case Error => (g', cleared.(status := Failed))
    case Work(morsel) =>
      var moved := l.morsel.None? || l.morsel.value.file != morsel.file;
      (g', if scan.stageUnit then
             cleared.(morsel := Some(morsel), stage := Some(morsel.file), rows := scan.stageRows(morsel.file))
           else if moved then cleared.(morsel := Some(morsel), stage := Some(morsel.file))
           else cleared.(morsel := Some(morsel)))
  }

  /** One step of a running thread: one turn of the inner loop, an emitted chunk, or a move to the next morsel. */
  function Step(scan: Scan, g: Global, l: Local): (Global, Local, Option<Chunk>)
    requires GlobalInv(scan, g) && LocalOk(scan, l)
  {
    if CanAdd(l) then (g, AddPrim(scan, l), None)
    else if l.rowOffset < |l.rows| then (g, Emit(scan, l).0, Some(Emit(scan, l).1))
    else (Advance(scan, g, l).0, Advance(scan, g, l).1, None)
  }

  // ---------------------------------------------------------------- the sequential walk

  /** The rows of prims at one time, prim after prim. */
  function PassRows(scan: Scan, file: nat, time: Time, tag: Option<real>, prims: seq<Prim>): seq<OutRow> {
    if prims == [] then []
    else PassRows(scan, file, time, tag, prims[..|prims| - 1]) +
         Tag(scan.primRows(file, time, prims[|prims| - 1]), tag)
  }

  /** The rows of prims at each of the times in turn. */
  function TimesRows(scan: Scan, file: nat, times: seq<real>, prims: seq<Prim>): seq<OutRow> {
    if times == [] then []
    else TimesRows(scan, file, times[..|times| - 1], prims) +
         PassRows(scan, file, TimeCode(times[|times| - 1]), Some(times[|times| - 1]), prims)
  }

  /** A unit of work: a run of prims of a file, or a whole stage. */
  datatype Unit = Unit(file: nat, prims: seq<Prim>)

  function UnitRows(scan: Scan, u: Unit): seq<OutRow> {
    if scan.stageUnit then Tag(scan.stageRows(u.file), None)
    else if scan.times == [] then PassRows(scan, u.file, scan.time, None, u.prims)
    else TimesRows(scan, u.file, scan.times, u.prims)
  }

  /** The prims of a file from `position`, in runs of MORSEL_SIZE. */
  function Runs(file: nat, prims: seq<Prim>, position: nat): seq<Unit>
    requires position <= |prims|
    decreases |prims| - position
  {
    var end := Smaller(position + MORSEL_SIZE, |prims|);
    if position == end then [] else [Unit(file, prims[position..end])] + Runs(file, prims, end)
  }

  function FileUnits(scan: Scan, f: nat): seq<Unit>
    requires f < |scan.files|
  {
    match scan.files[f]
    case Opens(prims) =>
      if scan.stageUnit then [Unit(f, [])] else if prims.None? then [] else Runs(f, prims.value, 0)
    case _ => []
  }

  /** The units of the files from `f`, in order. */
  function Units(scan: Scan, f: nat): seq<Unit>
    requires f <= |scan.files|
    decreases |scan.files| - f
  {
    if f == |scan.files| then [] else FileUnits(scan, f) + Units(scan, f + 1)
  }

  function AllRows(scan: Scan, units: seq<Unit>): seq<OutRow> {
    if units == [] then [] else AllRows(scan, units[..|units| - 1]) + UnitRows(scan, units[|units| - 1])
  }

  /** The rows of one walk over the files, unit after unit. */
  function Sequential(scan: Scan): seq<OutRow> {
    AllRows(scan, Units(scan, 0))
  }

  // ---------------------------------------------------------------- many threads

  /** The threads, and the chunks they have emitted so far, in the order they did. */
  datatype System = System(g: Global, threads: seq<Local>, log: seq<Chunk>)

  function Start(scan: Scan, threads: nat): System {
    System(Global(0, 0, None, 0), seq(threads, i => InitLocal(scan)), [])
  }

  predicate SystemOk(scan: Scan, s: System) {
    GlobalInv(scan, s.g) && forall t :: 0 <= t < |s.threads| ==> LocalOk(scan, s.threads[t])
  }

  predicate IsRunning(s: System, t: nat) {
    t < |s.threads| && s.threads[t].status.Running?
  }

  /** Thread `t` takes a step, if it is running. */
  function StepThread(scan: Scan, s: System, t: nat): System
    requires SystemOk(scan, s)
  {
    if !IsRunning(s, t) then s else
      var (g, l, chunk) := Step(scan, s.g, s.threads[t]);
      System(g, s.threads[t := l], if chunk.Some? then s.log + [chunk.value] else s.log)
  }

  /** The rows emitted for a batch, in the order they were emitted. */
  function Emitted(log: seq<Chunk>, batch: nat): seq<OutRow> {
    if log == [] then []
    else Emitted(log[..|log| - 1], batch) + (if log[|log| - 1].batch == batch then log[|log| - 1].rows else [])
  }

  /** The rows of the first `n` batches, in batch order. */
  function Assembled(log: seq<Chunk>, n: nat): seq<OutRow> {
    if n == 0 then [] else Assembled(log, n - 1) + Emitted(log, n - 1)
  }
}
