/** The evaluation ledgers under interruption: the rows of one harness run
    (evaluation/harness.py) and the cells of an experiment matrix
    (evaluation/context_experiments.py). */
module EvaluationLedger {
  import opened Prelude

  type Id = nat

  datatype RowStatus = Finished(result: nat) | Errored | Interrupted | NotRun | Omitted

  datatype Row = Row(id: Id, status: RowStatus)

  predicate Distinct(ids: seq<Id>) {
    forall i, j :: 0 <= i < j < |ids| ==> ids[i] != ids[j]
  }

  function Ids(rows: seq<Row>): seq<Id> {
    seq(|rows|, i requires 0 <= i < |rows| => rows[i].id)
  }

  // ----- one harness run -----

  // How running one task ends: with a row, with an error that becomes a row, or interrupted.
  datatype TaskEnd = Result(result: nat) | Error | Stop

  datatype RunStatus = Running | Completed | Broken

  /** The row of a task that was run. */
  function TaskRow(id: Id, end: TaskEnd): Row
    requires !end.Stop?
  {
    Row(id, if end.Result? then Finished(end.result) else Errored)
  }

  /** The rows a run ends with when its first `k` tasks were finished and the next one was in
      flight or not: finished rows as they were, then the others by what became of them. */
  function Closed(tasks: seq<Id>, ends: Id -> TaskEnd, k: nat, inFlight: bool): seq<Row>
    requires k <= |tasks| && forall i :: 0 <= i < k ==> !ends(tasks[i]).Stop?
  {
    seq(|tasks|, i requires 0 <= i < |tasks| =>
      if i < k && !ends(tasks[i]).Stop? then TaskRow(tasks[i], ends(tasks[i]))
      else Row(tasks[i], if i == k && inFlight then Interrupted else NotRun))
  }

  class CodingBenchmarkHarness {
    const tasks: seq<Id>
    var rows: seq<Row>
    var active: Option<Id>
    var status: RunStatus
    var ledger: seq<Row>
    // Steps until something raises; past the end of the run nothing does.
    var steps: nat

    constructor (tasks: seq<Id>, steps: nat)
      ensures this.tasks == tasks && rows == [] && active == None && status == Running && ledger == [] && this.steps == steps
    {
      this.tasks, rows, active, status, ledger, this.steps := tasks, [], None, Running, [], steps;
    }

    /** A place where an exception or an interruption may come up. */
    method Tick() returns (raised: bool)
      modifies this`steps
    {
      raised := steps == 0;
      if !raised { steps := steps - 1; }
    }

    /** Everything under the guard: `k` tasks get their rows before something raises. */
    method Guarded(ends: Id -> TaskEnd) returns (raised: bool, ghost k: nat)
      requires rows == [] && active == None && Distinct(tasks)
      modifies this
      ensures k <= |tasks| && (forall i :: 0 <= i < k ==> !ends(tasks[i]).Stop?) && (!raised ==> k == |tasks|)
      ensures rows == Closed(tasks, ends, k, false)[..k]
      ensures active == None || (k < |tasks| && active == Some(tasks[k])) || (0 < k && active == Some(tasks[k - 1]))
      ensures !raised ==> status == Completed && active == None
    {
      k := 0;
      raised := Tick();
      if raised { return; }
      ledger := rows;
      for i := 0 to |tasks|
        invariant k == i && active == None
        invariant (forall j :: 0 <= j < i ==> !ends(tasks[j]).Stop?) && rows == Closed(tasks, ends, i, false)[..i]
      {
        raised := Tick();
        if raised { return; }
        active := Some(tasks[i]);
        raised := Tick();
        if raised || ends(tasks[i]).Stop? { return true, k; }
        ghost var before := rows;
        rows := rows + [TaskRow(tasks[i], ends(tasks[i]))];
        k := k + 1;
        raised := Tick();
        if raised { return; }
        active := None;
        raised := Tick();
        if raised { return; }
        ledger := rows;
        raised := Tick();
        if raised { return; }
      }
      status := Completed;
      raised := Tick();
      if raised { return; }
      ledger := rows;
      raised := Tick();
    }

    /** The handler: every task without a row gets one. */
    method CloseRows(ghost ends: Id -> TaskEnd, ghost k: nat)
      requires Distinct(tasks) && k <= |tasks| && forall i :: 0 <= i < k ==> !ends(tasks[i]).Stop?
      requires rows == Closed(tasks, ends, k, false)[..k]
      requires active == None || (k < |tasks| && active == Some(tasks[k])) || (0 < k && active == Some(tasks[k - 1]))
      modifies this`rows
      ensures rows == Closed(tasks, ends, k, k < |tasks| && active == Some(tasks[k]))
    {
      ghost var inFlight := k < |tasks| && active == Some(tasks[k]);
      ghost var closed := Closed(tasks, ends, k, inFlight);
      ghost var before := rows;
      assert before == closed[..k];
      var recorded := set r | r in rows :: r.id;
      assert forall j :: 0 <= j < k ==> before[j].id == tasks[j] && before[j] in before;
      for i := 0 to |tasks|
        invariant rows == closed[..Max(i, k)]
      {
        if tasks[i] in recorded {
          assert i < k;
          continue;
        }
        assert k <= i;
        rows := rows + [Row(tasks[i], if active == Some(tasks[i]) then Interrupted else NotRun)];
        assert closed[..i + 1] == closed[..i] + [closed[i]];
      }
      assert closed[..|tasks|] == closed;
    }

    /** A run. However it ends, its ledger has exactly one row a task, in order: the finished
        ones kept, the one in flight marked, the others not run. */
    method Run(ends: Id -> TaskEnd) returns (raised: bool, ghost k: nat)
      requires rows == [] && active == None && status == Running && Distinct(tasks)
      modifies this
      ensures k <= |tasks| && forall i :: 0 <= i < k ==> !ends(tasks[i]).Stop?
      ensures ledger == rows && Ids(rows) == tasks
      ensures rows == Closed(tasks, ends, k, raised && k < |tasks| && active == Some(tasks[k]))
      ensures !raised ==> k == |tasks| && status == Completed
      ensures raised ==> status == Broken
    {
      raised, k := Guarded(ends);
      if raised {
        status := Broken;
        CloseRows(ends, k);
      }
      assert !raised ==> Closed(tasks, ends, k, false)[..k] == Closed(tasks, ends, k, false);
      assert Ids(rows) == tasks;
      ledger := rows;
    }
  }

  // ----- a matrix of cells -----

  datatype CellStatus = Pending | Active | CellCompleted | CellError | CellInterrupted | CellNotRun | Unsupported

  datatype Cell = Cell(native: bool, status: CellStatus, rows: seq<Row>)

  function IdSet(rows: seq<Row>): set<Id> {
    set r | r in rows :: r.id
  }

  function Elements(ids: seq<Id>): set<Id> {
    set id | id in ids
  }

  predicate NoneTwice(rows: seq<Row>) {
    forall i, j :: 0 <= i < j < |rows| ==> rows[i].id != rows[j].id
  }

  /** A ledger the harness may hand over: known tasks, none twice. */
  predicate LedgerOk(expected: seq<Id>, rows: seq<Row>) {
    NoneTwice(rows) && IdSet(rows) <= Elements(expected)
  }

  /** Every expected task has exactly one row, and there are no others. */
  predicate Complete(expected: seq<Id>, rows: seq<Row>) {
    NoneTwice(rows) && IdSet(rows) == Elements(expected)
  }

  lemma IdsOfConcat(a: seq<Row>, b: seq<Row>)
    ensures IdSet(a + b) == IdSet(a) + IdSet(b)
  {
    forall id | id in IdSet(a) + IdSet(b) ensures id in IdSet(a + b) {
      var r :| (r in a || r in b) && r.id == id;
      assert r in a + b;
    }
  }

  lemma NoneTwiceConcat(a: seq<Row>, b: seq<Row>)
    requires NoneTwice(a) && NoneTwice(b) && IdSet(a) !! IdSet(b)
    ensures NoneTwice(a + b)
  {
    forall i, j | 0 <= i < |a| && 0 <= j < |b| ensures a[i].id != b[j].id {
      assert a[i].id in IdSet(a) && b[j].id in IdSet(b);
    }
  }

  /** Rows for the first `n` expected tasks that have none. */
  function Missing(expected: seq<Id>, n: nat, recorded: set<Id>, status: RowStatus): seq<Row>
    requires n <= |expected|
  {
    if n == 0 then [] else
    Missing(expected, n - 1, recorded, status) + if expected[n - 1] in recorded then [] else [Row(expected[n - 1], status)]
  }

  function Fill(expected: seq<Id>, rows: seq<Row>, status: RowStatus): seq<Row> {
    rows + Missing(expected, |expected|, IdSet(rows), status)
  }

  lemma {:induction false} MissingIds(expected: seq<Id>, n: nat, recorded: set<Id>, status: RowStatus)
    requires n <= |expected|
    ensures IdSet(Missing(expected, n, recorded, status)) == Elements(expected[..n]) - recorded
  {
    if n > 0 {
      MissingIds(expected, n - 1, recorded, status);
      assert expected[..n] == expected[..n - 1] + [expected[n - 1]];
      IdsOfConcat(Missing(expected, n - 1, recorded, status), [Row(expected[n - 1], status)]);
      assert IdSet([Row(expected[n - 1], status)]) == {expected[n - 1]} by {
        assert Row(expected[n - 1], status) in [Row(expected[n - 1], status)];
      }
      assert Elements(expected[..n]) == Elements(expected[..n - 1]) + {expected[n - 1]};
    }
  }

  lemma {:induction false} MissingOnce(expected: seq<Id>, n: nat, recorded: set<Id>, status: RowStatus)
    requires n <= |expected| && Distinct(expected)
    ensures NoneTwice(Missing(expected, n, recorded, status))
  {
    if n > 0 {
      MissingOnce(expected, n - 1, recorded, status);
      MissingIds(expected, n - 1, recorded, status);
      NoneTwiceConcat(Missing(expected, n - 1, recorded, status), [Row(expected[n - 1], status)]);
    }
  }

  /** Filling up a valid ledger completes it and keeps its rows in front. */
  lemma FillingCompletes(expected: seq<Id>, rows: seq<Row>, status: RowStatus)
    requires Distinct(expected) && LedgerOk(expected, rows)
    ensures Complete(expected, Fill(expected, rows, status))
  {
    var missing := Missing(expected, |expected|, IdSet(rows), status);
    MissingIds(expected, |expected|, IdSet(rows), status);
    MissingOnce(expected, |expected|, IdSet(rows), status);
    assert expected[..|expected|] == expected;
    IdsOfConcat(rows, missing);
    NoneTwiceConcat(rows, missing);
  }

  // Where the interruption comes up while a cell is run. What the handler does after its status
  // update is still to come at `HandlerGap`.
  datatype Point = BeforeHarness | Progress(n: nat) | AfterReturn | HandlerStart | HandlerGap | HandlerEnd

  /** What the harness of a cell does: the ledgers its progress events show, and how it ends.
      A last ledger may be found by the handler. */
  datatype Script = Script(progress: seq<seq<Row>>, final: Option<seq<Row>>, latest: Option<seq<Row>>)

  /** The rows after the first `n` progress events, and whether one of them showed an invalid
      ledger, which raises. */
  function Shown(expected: seq<Id>, rows: seq<Row>, progress: seq<seq<Row>>, n: nat): (seq<Row>, bool)
    requires n <= |progress|
  {
    if n == 0 then (rows, false) else
    var (before, raised) := Shown(expected, rows, progress, n - 1);
    if raised then (before, true)
    else if LedgerOk(expected, progress[n - 1]) then (progress[n - 1], false) else (before, true)
  }

  datatype CellEnd = CellEnd(cell: Cell, interrupted: bool)

  /** The handler of a cell: the last valid ledger, the status, then the missing rows. */
  function Handled(expected: seq<Id>, cell: Cell, script: Script, interrupted: bool, strike: Option<Point>): CellEnd {
    if strike == Some(HandlerStart) then CellEnd(cell, true) else
    var rows := if script.latest.Some? && LedgerOk(expected, script.latest.value) then script.latest.value else cell.rows;
    var status := if interrupted then CellInterrupted else CellError;
    if strike == Some(HandlerGap) then CellEnd(cell.(rows := rows, status := status), true) else
    CellEnd(cell.(rows := Fill(expected, rows, if interrupted then Interrupted else Errored), status := status),
            interrupted || strike == Some(HandlerEnd))
  }

  /** An active cell after its harness was run, with at most one interruption on the way. */
  function CellAfter(expected: seq<Id>, cell: Cell, script: Script, strike: Option<Point>): CellEnd {
    if strike == Some(BeforeHarness) then Handled(expected, cell, script, true, None) else
    var cut := if strike.Some? && strike.value.Progress? then Min(strike.value.n, |script.progress|) else |script.progress|;
    var (rows, raised) := Shown(expected, cell.rows, script.progress, cut);
    var shown := cell.(rows := rows);
    if raised then Handled(expected, shown, script, false, strike)
    else if cut < |script.progress| then Handled(expected, shown, script, true, None)
    else Returned(expected, shown, script, strike)
  }

  /** The end of a harness run that showed its progress: its result, checked and filled up. */
  function Returned(expected: seq<Id>, cell: Cell, script: Script, strike: Option<Point>): CellEnd {
    if script.final.None? || !LedgerOk(expected, script.final.value) then Handled(expected, cell, script, false, strike)
    else if strike == Some(AfterReturn) then Handled(expected, cell.(rows := script.final.value), script, true, None)
    else CellEnd(cell.(rows := Fill(expected, script.final.value, Omitted),
                       status := if Complete(expected, script.final.value) then CellCompleted else CellError), false)
  }

  lemma {:induction false} ShownIsOk(expected: seq<Id>, rows: seq<Row>, progress: seq<seq<Row>>, n: nat)
    requires n <= |progress| && LedgerOk(expected, rows)
    ensures LedgerOk(expected, Shown(expected, rows, progress, n).0)
  {
    if n > 0 { ShownIsOk(expected, rows, progress, n - 1); }
  }

  predicate Open(status: CellStatus) {
    status == Pending || status == Active
  }

  lemma HandledIsClosed(expected: seq<Id>, cell: Cell, script: Script, interrupted: bool, strike: Option<Point>)
    requires Distinct(expected) && LedgerOk(expected, cell.rows) && cell.status == Active
    ensures EndsWell(expected, Handled(expected, cell, script, interrupted, strike).cell, strike)
  {
    var rows := if script.latest.Some? && LedgerOk(expected, script.latest.value) then script.latest.value else cell.rows;
    FillingCompletes(expected, rows, if interrupted then Interrupted else Errored);
  }

  /** A cell is complete, or still marked as unfinished, or the interruption came in the gap. */
  predicate EndsWell(expected: seq<Id>, cell: Cell, strike: Option<Point>) {
    LedgerOk(expected, cell.rows) && (Open(cell.status) || Complete(expected, cell.rows) || strike == Some(HandlerGap))
  }

  lemma CellEndsWell(expected: seq<Id>, cell: Cell, script: Script, strike: Option<Point>)
    requires Distinct(expected) && LedgerOk(expected, cell.rows) && cell.status == Active
    ensures EndsWell(expected, CellAfter(expected, cell, script, strike).cell, strike)
  {
    var cut := if strike.Some? && strike.value.Progress? then Min(strike.value.n, |script.progress|) else |script.progress|;
    ShownIsOk(expected, cell.rows, script.progress, cut);
    var shown := cell.(rows := Shown(expected, cell.rows, script.progress, cut).0);
    HandledIsClosed(expected, cell, script, true, None);
    HandledIsClosed(expected, shown, script, false, strike);
    HandledIsClosed(expected, shown, script, true, None);
    ReturnedEndsWell(expected, shown, script, strike);
  }

  lemma ReturnedEndsWell(expected: seq<Id>, cell: Cell, script: Script, strike: Option<Point>)
    requires Distinct(expected) && LedgerOk(expected, cell.rows) && cell.status == Active
    ensures EndsWell(expected, Returned(expected, cell, script, strike).cell, strike)
  {
    HandledIsClosed(expected, cell, script, false, strike);
    if script.final.Some? && LedgerOk(expected, script.final.value) {
      HandledIsClosed(expected, cell.(rows := script.final.value), script, true, None);
      FillingCompletes(expected, script.final.value, Omitted);
    }
  }

  /** Only an interruption can leave a cell marked as unfinished. */
  lemma UninterruptedIsClosed(expected: seq<Id>, cell: Cell, script: Script, strike: Option<Point>)
    requires !CellAfter(expected, cell, script, strike).interrupted
    ensures !Open(CellAfter(expected, cell, script, strike).cell.status)
  {}

  /** The rows the handler of a cell works on. */
  function HandlerRows(expected: seq<Id>, rows: seq<Row>, script: Script): seq<Row> {
    if script.latest.Some? && LedgerOk(expected, script.latest.value) then script.latest.value else rows
  }

  /** The exact gap: a cell whose harness failed is left incomplete, and not marked as
      unfinished, if and only if the interruption comes between the handler's status update and
      its filling up, and the last ledger did not have every task. */
  lemma GapIffIncomplete(expected: seq<Id>, cell: Cell, script: Script, interrupted: bool, strike: Option<Point>)
    requires Distinct(expected) && LedgerOk(expected, cell.rows) && cell.status == Active
    ensures var end := Handled(expected, cell, script, interrupted, strike).cell;
      (!Open(end.status) && !Complete(expected, end.rows)) <==>
        (strike == Some(HandlerGap) && IdSet(HandlerRows(expected, cell.rows, script)) != Elements(expected))
  {
    HandledIsClosed(expected, cell, script, interrupted, strike);
    assert LedgerOk(expected, HandlerRows(expected, cell.rows, script));
  }

  // Where the one interruption of a matrix comes up, if it does.
  datatype Strike = Never | AtStart | BeforeCell(i: nat) | InCell(i: nat, point: Point) | AfterCell(i: nat) | AtEnd

  /** Nothing of the cell is lost or doubled, and it is complete unless it is open or struck. */
  predicate InOrder(expected: seq<Id>, cell: Cell, j: nat, strike: Strike) {
    LedgerOk(expected, cell.rows) && (Open(cell.status) || Complete(expected, cell.rows) || strike == InCell(j, HandlerGap))
  }

  lemma FreshIsInOrder(expected: seq<Id>, cell: Cell, j: nat, strike: Strike)
    requires cell.status == Pending && cell.rows == []
    ensures InOrder(expected, cell, j, strike)
  {
    assert IdSet(cell.rows) == {};
  }

  class ContextExperiment {
    const expected: seq<Id>
    var cells: seq<Cell>

    constructor (expected: seq<Id>, cells: seq<Cell>)
      ensures this.expected == expected && this.cells == cells
    {
      this.expected, this.cells := expected, cells;
    }

    /** Takes over a ledger shown by the harness; an invalid one raises and changes nothing. */
    method Apply(i: nat, rows: seq<Row>) returns (ok: bool)
      requires i < |cells|
      modifies this
      ensures ok == LedgerOk(expected, rows)
      ensures cells == if ok then old(cells)[i := old(cells)[i].(rows := rows)] else old(cells)
    {
      ok := LedgerOk(expected, rows);
      if ok { cells := cells[i := cells[i].(rows := rows)]; }
    }

    method FillMissing(i: nat, status: RowStatus)
      requires i < |cells|
      modifies this
      ensures cells == old(cells)[i := old(cells)[i].(rows := Fill(expected, old(cells)[i].rows, status))]
    {
      var recorded, rows := IdSet(cells[i].rows), cells[i].rows;
      for n := 0 to |expected|
        invariant rows == cells[i].rows + Missing(expected, n, recorded, status)
      {
        if expected[n] !in recorded { rows := rows + [Row(expected[n], status)]; }
      }
      cells := cells[i := cells[i].(rows := rows)];
    }

    method Handle(i: nat, script: Script, interrupted: bool, strike: Option<Point>) returns (raised: bool)
      requires i < |cells|
      modifies this
      ensures var end := Handled(expected, old(cells)[i], script, interrupted, strike);
        cells == old(cells)[i := end.cell] && raised == end.interrupted
    {
      if strike == Some(HandlerStart) { return true; }
      if script.latest.Some? {
        var _ := Apply(i, script.latest.value);
      }
      cells := cells[i := cells[i].(status := if interrupted then CellInterrupted else CellError)];
      if strike == Some(HandlerGap) { return true; }
      FillMissing(i, if interrupted then Interrupted else Errored);
      raised := interrupted || strike == Some(HandlerEnd);
    }

    /** The progress callback, event by event. */
    method ShowProgress(i: nat, progress: seq<seq<Row>>, cut: nat) returns (raised: bool)
      requires i < |cells| && cut <= |progress|
      modifies this
      ensures var shown := Shown(expected, old(cells)[i].rows, progress, cut);
        cells == old(cells)[i := old(cells)[i].(rows := shown.0)] && raised == shown.1
    {
      raised := false;
      ghost var before := cells;
      for n := 0 to cut
        invariant var shown := Shown(expected, before[i].rows, progress, n);
          cells == before[i := before[i].(rows := shown.0)] && raised == shown.1
      {
        if !raised {
          var ok := Apply(i, progress[n]);
          raised := !ok;
        }
      }
    }

    method RunCell(i: nat, script: Script, strike: Option<Point>) returns (raised: bool)
      requires i < |cells|
      modifies this
      ensures var end := CellAfter(expected, old(cells)[i], script, strike);
        cells == old(cells)[i := end.cell] && raised == end.interrupted
    {
      if strike == Some(BeforeHarness) {
        raised := Handle(i, script, true, None);
        return;
      }
      var cut := if strike.Some? && strike.value.Progress? then Min(strike.value.n, |script.progress|) else |script.progress|;
      var failed := ShowProgress(i, script.progress, cut);
      if failed {
        raised := Handle(i, script, false, strike);
        return;
      }
      if cut < |script.progress| {
        raised := Handle(i, script, true, None);
        return;
      }
      raised := Finish(i, script, strike);
    }

    method Finish(i: nat, script: Script, strike: Option<Point>) returns (raised: bool)
      requires i < |cells|
      modifies this
      ensures var end := Returned(expected, old(cells)[i], script, strike);
        cells == old(cells)[i := end.cell] && raised == end.interrupted
    {
      var ok := false;
      if script.final.Some? { ok := Apply(i, script.final.value); }
      if !ok {
        raised := Handle(i, script, false, strike);
      } else if strike == Some(AfterReturn) {
        raised := Handle(i, script, true, None);
      } else {
        var complete := Complete(expected, cells[i].rows);
        FillMissing(i, Omitted);
        cells := cells[i := cells[i].(status := if complete then CellCompleted else CellError)];
        raised := false;
      }
    }

    /** One cell of the loop: marked active, reported, then run. */
    method StepCell(i: nat, scripted: bool, script: Script, strike: Strike) returns (raised: bool)
      requires i < |cells| && cells[i].rows == [] && Distinct(expected)
      modifies this
      ensures |cells| == old(|cells|) && forall j :: 0 <= j < |cells| && j != i ==> cells[j] == old(cells)[j]
      ensures InOrder(expected, cells[i], i, strike)
      ensures !raised ==> !Open(cells[i].status)
    {
      cells := cells[i := cells[i].(status := Active)];
      if strike == BeforeCell(i) { return true; }
      if scripted && cells[i].native {
        FillingCompletes(expected, [], NotRun);
        cells := cells[i := Cell(true, Unsupported, Fill(expected, [], NotRun))];
        raised := false;
      } else {
        var point := if strike.InCell? && strike.i == i then Some(strike.point) else None;
        CellEndsWell(expected, cells[i], script, point);
        ghost var active := cells[i];
        raised := RunCell(i, script, point);
        if !raised { UninterruptedIsClosed(expected, active, script, point); }
      }
      raised := raised || strike == AfterCell(i);
    }

    /** The outer handler: unfinished cells get their missing rows. */
    method CloseCells(strike: Strike)
      requires Distinct(expected) && forall j :: 0 <= j < |cells| ==> InOrder(expected, cells[j], j, strike)
      modifies this
      ensures |cells| == old(|cells|)
      ensures forall j :: 0 <= j < |cells| ==> InOrder(expected, cells[j], j, strike) && !Open(cells[j].status)
      ensures forall j :: 0 <= j < |cells| && !Open(old(cells)[j].status) ==> cells[j] == old(cells)[j]
    {
      for i := 0 to |cells|
        invariant |cells| == old(|cells|) && forall j :: 0 <= j < |cells| ==> InOrder(expected, cells[j], j, strike)
        invariant forall j :: 0 <= j < i ==> !Open(cells[j].status)
        invariant forall j :: i <= j < |cells| ==> cells[j] == old(cells)[j]
        invariant forall j :: 0 <= j < |cells| && !Open(old(cells)[j].status) ==> cells[j] == old(cells)[j]
      {
        if Open(cells[i].status) {
          var active := cells[i].status == Active;
          var rows := cells[i].rows;
          FillingCompletes(expected, rows, if active then Interrupted else NotRun);
          cells := cells[i := cells[i].(status := if active then CellInterrupted else CellNotRun)];
          FillMissing(i, if active then Interrupted else NotRun);
        }
      }
    }

    /** A matrix. Wherever the one interruption comes up, every cell ends closed and holds each
        expected task exactly once, but for a cell struck in its handler's gap. */
    method RunMatrix(scripted: bool, scripts: seq<Script>, strike: Strike) returns (raised: bool)
      requires Distinct(expected) && |scripts| == |cells|
      requires forall j :: 0 <= j < |cells| ==> cells[j].status == Pending && cells[j].rows == []
      modifies this
      ensures |cells| == old(|cells|)
      ensures forall j :: 0 <= j < |cells| ==> LedgerOk(expected, cells[j].rows) && !Open(cells[j].status)
      ensures forall j :: 0 <= j < |cells| && strike != InCell(j, HandlerGap) ==> Complete(expected, cells[j].rows)
    {
      raised := strike == AtStart;
      var i := 0;
      forall j | 0 <= j < |cells| ensures InOrder(expected, cells[j], j, strike) { FreshIsInOrder(expected, cells[j], j, strike); }
      while !raised && i < |cells|
        invariant i <= |cells| == old(|cells|)
        invariant forall j :: 0 <= j < |cells| ==> InOrder(expected, cells[j], j, strike)
        invariant !raised ==> forall j :: 0 <= j < i ==> !Open(cells[j].status)
        invariant !raised ==> forall j :: i <= j < |cells| ==> cells[j].status == Pending && cells[j].rows == []
        decreases |cells| - i, !raised
      {
        raised := StepCell(i, scripted, scripts[i], strike);
        if !raised { i := i + 1; }
      }
      raised := raised || strike == AtEnd;
      if raised { CloseCells(strike); }
    }
  }
}
