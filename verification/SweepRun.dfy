// Expanding a whole sweep, and the accounting while it runs.

module SweepRun {
  import opened IntMath
  import opened Wrappers
  import opened Sweep

  datatype Run = Run(symbol: string, token: int, strategy: string, params: Params)

  // ----- what a sweep expands to

  /** The checked value lists of a cell, or what is wrong with it. */
  function CellLists(cell: Cell, schemas: Schemas): Result<seq<seq<ParamValue>>, SweepError> {
    if cell.strategy !in schemas then Err(UnknownStrategy)
    else ValueLists(schemas[cell.strategy], cell.grid, |cell.grid|)
  }

  predicate CellsOk(cells: seq<Cell>, schemas: Schemas) {
    forall i :: 0 <= i < |cells| ==> CellLists(cells[i], schemas).Ok?
  }

  function RunsPerSymbol(cells: seq<Cell>, schemas: Schemas): nat
    requires CellsOk(cells, schemas)
  {
    if cells == [] then 0
    else RunsPerSymbol(cells[..|cells| - 1], schemas) + Size(CellLists(cells[|cells| - 1], schemas).value)
  }

  /** One symbol and one cell: its parameter sets in their order. */
  function CellRuns(symbol: (string, int), cell: Cell, expansions: seq<Params>): seq<Run> {
    seq(|expansions|, k requires 0 <= k < |expansions| => Run(symbol.0, symbol.1, cell.strategy, expansions[k]))
  }

  /** One symbol: the first `n` cells in their order. */
  function SymbolRuns(symbol: (string, int), cells: seq<Cell>, expanded: seq<seq<Params>>, n: nat): seq<Run>
    requires n <= |cells| && n <= |expanded|
  {
    if n == 0 then [] else SymbolRuns(symbol, cells, expanded, n - 1) + CellRuns(symbol, cells[n - 1], expanded[n - 1])
  }

  function AllRuns(symbols: seq<(string, int)>, cells: seq<Cell>, expanded: seq<seq<Params>>, n: nat): seq<Run>
    requires n <= |symbols| && |cells| == |expanded|
  {
    if n == 0 then []
    else AllRuns(symbols, cells, expanded, n - 1) + SymbolRuns(symbols[n - 1], cells, expanded, |cells|)
  }

  /** The expansion of every cell lists its combinations. */
  ghost predicate AllEnumerate(cells: seq<Cell>, schemas: Schemas, expanded: seq<seq<Params>>, n: nat)
    requires n <= |cells|
  {
    n <= |expanded| && forall i :: 0 <= i < n ==>
      CellLists(cells[i], schemas).Ok? && Enumerates(expanded[i], Names(cells[i].grid), CellLists(cells[i], schemas).value)
  }

  lemma {:induction false} SymbolRunsCount(symbol: (string, int), cells: seq<Cell>, schemas: Schemas, expanded: seq<seq<Params>>, n: nat)
    requires n <= |cells| && CellsOk(cells, schemas) && AllEnumerate(cells, schemas, expanded, n)
    ensures |SymbolRuns(symbol, cells, expanded, n)| == RunsPerSymbol(cells[..n], schemas)
  {
    if n > 0 {
      SymbolRunsCount(symbol, cells, schemas, expanded, n - 1);
      assert cells[..n][..n - 1] == cells[..n - 1];
    }
  }

  lemma OneMoreTime(n: int, t: int)
    ensures n * t + t == (n + 1) * t
  {
  }

  lemma {:induction false} AllRunsCountBy(symbols: seq<(string, int)>, cells: seq<Cell>, expanded: seq<seq<Params>>, n: nat, t: nat)
    requires n <= |symbols| && |cells| == |expanded|
    requires forall i :: 0 <= i < |symbols| ==> |SymbolRuns(symbols[i], cells, expanded, |cells|)| == t
    ensures |AllRuns(symbols, cells, expanded, n)| == n * t
  {
    hide SymbolRuns;
    if n > 0 {
      AllRunsCountBy(symbols, cells, expanded, n - 1, t);
      OneMoreTime(n - 1, t);
    }
  }

  /** A sweep has as many runs as symbols times the combinations of all cells. */
  lemma AllRunsCount(symbols: seq<(string, int)>, cells: seq<Cell>, schemas: Schemas, expanded: seq<seq<Params>>, n: nat)
    requires n <= |symbols| && |cells| == |expanded| && CellsOk(cells, schemas)
    requires AllEnumerate(cells, schemas, expanded, |cells|)
    ensures |AllRuns(symbols, cells, expanded, n)| == n * RunsPerSymbol(cells, schemas)
  {
    assert cells[..|cells|] == cells;
    forall i | 0 <= i < |symbols|
      ensures |SymbolRuns(symbols[i], cells, expanded, |cells|)| == RunsPerSymbol(cells, schemas)
    {
      SymbolRunsCount(symbols[i], cells, schemas, expanded, |cells|);
    }
    hide RunsPerSymbol, SymbolRuns, AllRuns;
    AllRunsCountBy(symbols, cells, expanded, n, RunsPerSymbol(cells, schemas));
  }

  lemma {:induction false} SizePositive(lists: seq<seq<ParamValue>>)
    requires forall i :: 0 <= i < |lists| ==> lists[i] != []
    ensures Size(lists) >= 1
  {
    if lists != [] {
      SizePositive(lists[..|lists| - 1]);
      MulBounds(Size(lists[..|lists| - 1]), |lists[|lists| - 1]|);
    }
  }

  lemma RunsPerSymbolNext(cells: seq<Cell>, schemas: Schemas, n: nat)
    requires n < |cells| && CellsOk(cells[..n + 1], schemas)
    ensures CellsOk(cells[..n], schemas)
    ensures RunsPerSymbol(cells[..n + 1], schemas) ==
            RunsPerSymbol(cells[..n], schemas) + Size(CellLists(cells[n], schemas).value)
  {
    assert cells[..n + 1][..n] == cells[..n];
    assert forall i :: 0 <= i < n ==> cells[..n][i] == cells[..n + 1][i];
  }

  /** The first `n` cells are sound, expanded, and counted in `total`. */
  ghost predicate ExpandedSoFar(cells: seq<Cell>, schemas: Schemas, expanded: seq<seq<Params>>, total: nat, n: nat)
    requires n <= |cells|
  {
    && |expanded| == n && CellsOk(cells[..n], schemas) && AllEnumerate(cells, schemas, expanded, n)
    && total == RunsPerSymbol(cells[..n], schemas) && (n > 0 ==> total >= 1)
  }

  lemma NothingExpanded(cells: seq<Cell>, schemas: Schemas)
    ensures ExpandedSoFar(cells, schemas, [], 0, 0)
  {
  }

  lemma ExpandedNext(cells: seq<Cell>, schemas: Schemas, expanded: seq<seq<Params>>, total: nat, n: nat, more: seq<Params>)
    requires n < |cells| && ExpandedSoFar(cells, schemas, expanded, total, n)
    requires CellLists(cells[n], schemas).Ok? && Enumerates(more, Names(cells[n].grid), CellLists(cells[n], schemas).value)
    ensures ExpandedSoFar(cells, schemas, expanded + [more], total + |more|, n + 1)
  {
    hide CellLists, Enumerates, RunsPerSymbol;
    assert forall i :: 0 <= i < n ==> cells[..n][i] == cells[..n + 1][i];
    RunsPerSymbolNext(cells, schemas, n);
    EnumeratesSome(more, cells[n], schemas);
  }

  lemma EnumeratesSome(more: seq<Params>, cell: Cell, schemas: Schemas)
    requires CellLists(cell, schemas).Ok? && Enumerates(more, Names(cell.grid), CellLists(cell, schemas).value)
    ensures |more| == Size(CellLists(cell, schemas).value) >= 1
  {
    SizePositive(CellLists(cell, schemas).value);
  }

  lemma AllExpanded(cells: seq<Cell>, schemas: Schemas, expanded: seq<seq<Params>>, total: nat)
    requires ExpandedSoFar(cells, schemas, expanded, total, |cells|)
    ensures |expanded| == |cells| && CellsOk(cells, schemas) && AllEnumerate(cells, schemas, expanded, |cells|)
    ensures total == RunsPerSymbol(cells, schemas) && (cells != [] ==> total >= 1)
  {
    assert cells[..|cells|] == cells;
  }

  lemma BadCell(cells: seq<Cell>, schemas: Schemas, n: nat)
    requires n < |cells| && CellLists(cells[n], schemas).Err?
    ensures !CellsOk(cells, schemas)
  {
  }

  /** A sweep is accepted exactly when it names symbols and cells, every cell is
      sound, and the total stays within the cap. */
  method Expand(symbols: seq<(string, int)>, cells: seq<Cell>, schemas: Schemas)
    returns (result: Result<seq<Run>, SweepError>, ghost expanded: seq<seq<Params>>)
    ensures result.Ok? <==> symbols != [] && cells != [] && CellsOk(cells, schemas)
                            && RunsPerSymbol(cells, schemas) * |symbols| <= 500
    ensures result.Ok? ==>
              && |expanded| == |cells| && AllEnumerate(cells, schemas, expanded, |cells|)
              && result.value == AllRuns(symbols, cells, expanded, |symbols|)
              && 1 <= |result.value| == |symbols| * RunsPerSymbol(cells, schemas) <= 500
  {
    hide CellsOk, RunsPerSymbol, Enumerates, AllRuns, ExpandedSoFar, AllEnumerate;
    expanded := [];
    if symbols == [] {
      return Err(NoSymbols), [];
    }
    if cells == [] {
      return Err(NoCells), [];
    }
    var total: nat := 0;
    var expandedCells: seq<seq<Params>> := [];
    NothingExpanded(cells, schemas);
    for n := 0 to |cells|
      invariant ExpandedSoFar(cells, schemas, expandedCells, total, n)
    {
      var cell := cells[n];
      if cell.strategy !in schemas {
        BadCell(cells, schemas, n);
        return Err(UnknownStrategy), [];
      }
      var params := ExpandCell(cell, schemas[cell.strategy]);
      if params.Err? {
        BadCell(cells, schemas, n);
        return Err(params.error), [];
      }
      ExpandedNext(cells, schemas, expandedCells, total, n, params.value);
      total := total + |params.value|;
      expandedCells := expandedCells + [params.value];
    }
    AllExpanded(cells, schemas, expandedCells, total);
    expanded := expandedCells;
    if total * |symbols| > MAX_SWEEP_CELLS {
      return Err(TooLarge), expanded;
    }
    var out := Combine(symbols, cells, expandedCells);
    AllRunsCount(symbols, cells, schemas, expandedCells, |symbols|);
    MulBounds(|symbols|, total);
    return Ok(out), expanded;
  }

  /** The nested output loops: symbols outermost, then cells, then parameters. */
  method Combine(symbols: seq<(string, int)>, cells: seq<Cell>, expanded: seq<seq<Params>>) returns (out: seq<Run>)
    requires |cells| == |expanded|
    ensures out == AllRuns(symbols, cells, expanded, |symbols|)
  {
    out := [];
    for s := 0 to |symbols|
      invariant out == AllRuns(symbols, cells, expanded, s)
    {
      ghost var before := out;
      for c := 0 to |cells|
        invariant out == before + SymbolRuns(symbols[s], cells, expanded, c)
      {
        ghost var sofar := out;
        for k := 0 to |expanded[c]|
          invariant out == sofar + CellRuns(symbols[s], cells[c], expanded[c])[..k]
        {
          out := out + [Run(symbols[s].0, symbols[s].1, cells[c].strategy, expanded[c][k])];
          assert CellRuns(symbols[s], cells[c], expanded[c])[..k + 1] ==
                 CellRuns(symbols[s], cells[c], expanded[c])[..k] + [CellRuns(symbols[s], cells[c], expanded[c])[k]];
        }
        assert CellRuns(symbols[s], cells[c], expanded[c])[..|expanded[c]|] == CellRuns(symbols[s], cells[c], expanded[c]);
      }
    }
  }

  // ----- running it

  /** Fetching a symbol's bars: there, refused, cancelled, or another exception. */
  datatype LoadOutcome = Loaded | LoadRefused | LoadCancelled | LoadRaised

  datatype CellOutcome = Ran | CellRaised | CellCancelled

  datatype SweepStatus = QUEUED | RUNNING | DONE | FAILED | CANCELLED

  /** What the outside world answers during a run. */
  datatype Outcomes = Outcomes(load: int -> LoadOutcome, cell: nat -> CellOutcome)

  predicate Succeeds(runs: seq<Run>, o: Outcomes, i: nat)
    requires i < |runs|
  {
    o.load(runs[i].token) == Loaded && o.cell(i) == Ran
  }

  function Successes(runs: seq<Run>, o: Outcomes, n: nat): nat
    requires n <= |runs|
  {
    if n == 0 then 0 else Successes(runs, o, n - 1) + if Succeeds(runs, o, n - 1) then 1 else 0
  }

  /** Nothing was cancelled, and no load raised an unexpected exception. */
  predicate Undisturbed(runs: seq<Run>, o: Outcomes) {
    forall i :: 0 <= i < |runs| ==>
      && (o.load(runs[i].token) == Loaded || o.load(runs[i].token) == LoadRefused)
      && (o.load(runs[i].token) == Loaded ==> o.cell(i) != CellCancelled)
  }

  /** What the header row of a sweep says. */
  datatype Progress = Progress(status: SweepStatus, completed: nat, failed: nat)

  /** The persisted header row of one sweep, with everything ever written to it. */
  class SweepRow {
    var current: Progress
    ghost var written: seq<Progress>

    constructor ()
      ensures current == Progress(QUEUED, 0, 0) && written == []
    {
      current, written := Progress(QUEUED, 0, 0), [];
    }

    method Write(progress: Progress)
      modifies this
      ensures current == progress && written == old(written) + [progress]
    {
      current, written := progress, written + [progress];
    }

    /** One symbol after the other, each token fetched once. */
    method LoadAll(runs: seq<Run>, o: Outcomes) returns (verdict: LoadOutcome, loaded: set<int>)
      ensures verdict == Loaded || verdict == LoadCancelled || verdict == LoadRaised
      ensures verdict == Loaded ==>
                forall i :: 0 <= i < |runs| ==>
                  && (o.load(runs[i].token) == Loaded || o.load(runs[i].token) == LoadRefused)
                  && (runs[i].token in loaded <==> o.load(runs[i].token) == Loaded)
      ensures verdict != Loaded ==> exists i :: 0 <= i < |runs| && o.load(runs[i].token) == verdict
    {
      loaded := {};
      var seen: set<int> := {};
      for i := 0 to |runs|
        invariant forall k :: 0 <= k < i ==> runs[k].token in seen
        invariant forall token :: token in seen ==>
                    && (token in loaded <==> o.load(token) == Loaded)
                    && (o.load(token) == Loaded || o.load(token) == LoadRefused)
        invariant forall token :: token in loaded ==> token in seen
      {
        var token := runs[i].token;
        if token !in seen {
          seen := seen + {token};
          match o.load(token)
          case LoadCancelled => return LoadCancelled, loaded;
          case LoadRaised => return LoadRaised, loaded;
          case LoadRefused =>
          case Loaded => loaded := loaded + {token};
        }
      }
      return Loaded, loaded;
    }

    /** The run.  Each expansion processed is written as it completes or fails, so
        the i-th such write says i in all; undisturbed, they add up to the total at
        the end, and the sweep is done exactly when at least one cell succeeded. */
    method RunAll(runs: seq<Run>, o: Outcomes) returns (raised: bool, ghost processed: nat)
      requires runs != []
      modifies this
      ensures processed <= |runs| && Started(old(written), old(current)) + Updates(runs, o, processed) <= written
      ensures !raised <==> Undisturbed(runs, o)
      ensures !raised ==>
                && processed == |runs| && current.completed == Successes(runs, o, |runs|)
                && current.completed + current.failed == |runs|
                && current.status == (if current.completed >= 1 then DONE else FAILED)
                && written == Started(old(written), old(current)) + Updates(runs, o, |runs|) + [current]
      ensures raised ==>
                || (written == Started(old(written), old(current)) + Updates(runs, o, processed) && current.status == RUNNING)
                || (written == Started(old(written), old(current)) + Updates(runs, o, processed) + [current]
                    && current.status == CANCELLED && current.completed + current.failed == processed < |runs|)
    {
      hide Undisturbed, Updates, Successes, Succeeds;
      Write(Progress(RUNNING, current.completed, current.failed));
      processed := 0;
      var verdict, loaded := LoadAll(runs, o);
      LoadVerdict(runs, o, verdict);
      NoUpdatesYet(runs, o);
      if verdict == LoadCancelled {
        Write(Progress(CANCELLED, 0, 0));
        return true, 0;
      }
      if verdict == LoadRaised {
        return true, 0;
      }
      var ran, refused := 0, 0;
      for i := 0 to |runs|
        invariant ran + refused == i == processed && ran == Successes(runs, o, i)
        invariant forall k :: 0 <= k < i ==> o.load(runs[k].token) == Loaded ==> o.cell(k) != CellCancelled
        invariant current.status == RUNNING && (i > 0 ==> current == Progress(RUNNING, ran, refused))
        invariant written == Started(old(written), old(current)) + Updates(runs, o, i)
      {
        if runs[i].token !in loaded {
          refused := refused + 1;
        } else {
          match o.cell(i)
          case Ran => ran := ran + 1;
          case CellRaised => refused := refused + 1;
          case CellCancelled =>
            CancelledDisturbs(runs, o, i);
            Write(Progress(CANCELLED, ran, refused));
            return true, i;
        }
        NextUpdate(runs, o, i);
        Write(Progress(RUNNING, ran, refused));
        processed := i + 1;
      }
      NothingDisturbed(runs, o);
      var finalStatus := if refused < |runs| then DONE else FAILED;
      if ran == 0 && refused > 0 {
        finalStatus := FAILED;
      }
      Write(Progress(finalStatus, ran, refused));
      return false, |runs|;
    }
  }

  /** Starting a run only sets the status; counts of an earlier run stay for now. */
  function Started(before: seq<Progress>, row: Progress): seq<Progress> { before + [row.(status := RUNNING)] }

  /** The writes of a run in progress, one per expansion. */
  function Updates(runs: seq<Run>, o: Outcomes, n: nat): (writes: seq<Progress>)
    requires n <= |runs|
    ensures |writes| == n
    ensures forall i :: 0 <= i < n ==> writes[i].status == RUNNING && writes[i].completed + writes[i].failed == i + 1
  {
    if n == 0 then []
    else
      SuccessesAtMost(runs, o, n);
      Updates(runs, o, n - 1) + [Progress(RUNNING, Successes(runs, o, n), n - Successes(runs, o, n))]
  }

  lemma {:induction false} SuccessesAtMost(runs: seq<Run>, o: Outcomes, n: nat)
    requires n <= |runs|
    ensures Successes(runs, o, n) <= n
  {
    hide Succeeds;
    if n > 0 {
      SuccessesAtMost(runs, o, n - 1);
    }
  }

  lemma NoUpdatesYet(runs: seq<Run>, o: Outcomes)
    ensures Updates(runs, o, 0) == [] && Successes(runs, o, 0) == 0
  {
  }

  lemma NextUpdate(runs: seq<Run>, o: Outcomes, i: nat)
    requires i < |runs|
    ensures Successes(runs, o, i + 1) == Successes(runs, o, i) + (if o.load(runs[i].token) == Loaded && o.cell(i) == Ran then 1 else 0)
    ensures Successes(runs, o, i + 1) <= i + 1
    ensures Updates(runs, o, i + 1) == Updates(runs, o, i) +
              [Progress(RUNNING, Successes(runs, o, i + 1), i + 1 - Successes(runs, o, i + 1))]
  {
    SuccessesAtMost(runs, o, i + 1);
  }

  lemma LoadVerdict(runs: seq<Run>, o: Outcomes, verdict: LoadOutcome)
    requires verdict != Loaded ==> exists i :: 0 <= i < |runs| && o.load(runs[i].token) == verdict
    ensures verdict == LoadCancelled || verdict == LoadRaised ==> !Undisturbed(runs, o)
  {
  }

  lemma CancelledDisturbs(runs: seq<Run>, o: Outcomes, i: nat)
    requires i < |runs| && o.load(runs[i].token) == Loaded && o.cell(i) == CellCancelled
    ensures !Undisturbed(runs, o)
  {
  }

  lemma NothingDisturbed(runs: seq<Run>, o: Outcomes)
    requires forall i :: 0 <= i < |runs| ==> o.load(runs[i].token) == Loaded || o.load(runs[i].token) == LoadRefused
    requires forall k :: 0 <= k < |runs| ==> o.load(runs[k].token) == Loaded ==> o.cell(k) != CellCancelled
    ensures Undisturbed(runs, o)
  {
  }
}
