/** `gen_evaluation`: the figures it derives from a benchmark table for one
    main tool and the tools it is compared with. Result labels are stripped in
    the caller's frame; rows whose main-tool result is "unknown" are dropped;
    per-column unknown counts, runtime sums and missing-runtime counts give
    Table 1; runtimes are sanitised; wins and losses of the main tool give
    Table 2; and the instances only one tool solves, or none does, are
    selected. Printing, plotting and the floating-point statistics are not
    modelled. */
module Evaluation {
  import opened Common
  import opened Frames
  import Plots

  /** The figures of one runtime column kept by the model (lines 153, 159):
      the sum of its defined runtimes and the number of missing ones, which
      the tables call "timeouts". */
  datatype Summary = Summary(sum: real, timeouts: nat)

  /** A line of Table 1 (lines 171-179, without max, mean, median and std). */
  datatype Interesting = Interesting(tool: string, sum: real, timeouts: nat, unknowns: nat)

  /** A line of Table 2 (line 213): the runtime column compared with the main
      tool's, then wins, wins against a timeout, losses, losses by a timeout. */
  datatype WinLoss = WinLoss(column: string, wins: nat, winsTimeouts: nat, loses: nat, losesTimeouts: nat)

  /** Everything one evaluation derives. */
  datatype Report = Report(
    unknowns: map<string, nat>,
    summaries: map<string, Summary>,
    interesting: seq<Interesting>,
    wins: seq<WinLoss>,
    plots: seq<Plots.PlotParams>,
    onlySolves: seq<seq<Row>>,
    unsolvable: seq<Row>)

  // ---------------------------------------------------------------------------
  // Dropping the rows the main tool left unknown (line 148)
  // ---------------------------------------------------------------------------

  function KnownIn(col: string): Row -> bool {
    (r: Row) => ResultOf(r, col) != Some("unknown")
  }

  /** `df.drop(df[df[col] == "unknown"].index)`, each row having its own index. */
  function DropUnknown(rows: seq<Row>, col: string): seq<Row> {
    Filter(rows, KnownIn(col))
  }

  /** Dropping removes exactly the rows labelled "unknown" in `col`: as many
      rows go as were counted before, none that stay is "unknown", every row
      that is not stays, and the rows that stay keep their order. */
  lemma DropUnknownExactly(rows: seq<Row>, col: string)
    ensures |DropUnknown(rows, col)| + CountUnknown(rows, col) == |rows|
    ensures forall k :: 0 <= k < |DropUnknown(rows, col)| ==> ResultOf(DropUnknown(rows, col)[k], col) != Some("unknown")
    ensures forall k :: 0 <= k < |rows| && ResultOf(rows[k], col) != Some("unknown") ==> rows[k] in DropUnknown(rows, col)
    ensures CountUnknown(rows, col) == 0 ==> DropUnknown(rows, col) == rows
  {
    FilterLength(rows, KnownIn(col));
    FilterMembers(rows, KnownIn(col));
    var kept := DropUnknown(rows, col);
    assert forall k :: 0 <= k < |kept| ==> kept[k] in kept;
    CountDisjoint(rows, KnownIn(col), UnknownIn(col));
    if CountUnknown(rows, col) == 0 {
      CountFull(rows, KnownIn(col));
      FilterAll(rows, KnownIn(col));
    }
  }

  /** Dropping commutes with concatenation, so relative order is kept. */
  lemma DropUnknownAppend(a: seq<Row>, b: seq<Row>, col: string)
    ensures DropUnknown(a + b, col) == DropUnknown(a, col) + DropUnknown(b, col)
  {
    FilterAppend(a, b, KnownIn(col));
  }

  /** Dropping rows never adds missing runtimes: the "timeouts" of a column
      after dropping are at most those before. */
  lemma DropUnknownMissing(rows: seq<Row>, main: string, col: string)
    ensures CountMissing(DropUnknown(rows, main), col) <= CountMissing(rows, col)
  {
    var kept := DropUnknown(rows, main);
    FilterFilter(rows, KnownIn(main), MissingIn(col), KeptAndMissing(main, col));
    FilterLength(kept, MissingIn(col));
    FilterLength(rows, KeptAndMissing(main, col));
    CountMonotone(rows, KeptAndMissing(main, col), MissingIn(col));
  }

  function KeptAndMissing(main: string, col: string): Row -> bool {
    (r: Row) => KnownIn(main)(r) && MissingIn(col)(r)
  }

  // ---------------------------------------------------------------------------
  // Per-column figures (lines 150-159)
  // ---------------------------------------------------------------------------

  /** `df[col].sum()`: NaN cells are skipped. */
  function SumDefined(rows: seq<Row>, col: string): real {
    if rows == [] then 0.0
    else
      (match RuntimeOf(rows[0], col) case Some(v) => v case None => 0.0)
      + SumDefined(rows[1..], col)
  }

  /** The sum over a concatenation of tables is the sum of their sums. */
  lemma {:induction false} SumDefinedAppend(a: seq<Row>, b: seq<Row>, col: string)
    ensures SumDefined(a + b, col) == SumDefined(a, col) + SumDefined(b, col)
  {
    if a == [] {
      assert a + b == b;
    } else {
      assert (a + b)[1..] == a[1..] + b;
      SumDefinedAppend(a[1..], b, col);
    }
  }

  /** The summary of every runtime column of `t`. */
  method RuntimeSummaries(t: Table) returns (m: map<string, Summary>)
    ensures forall c :: c in m <==> c in t.columns && IsRuntimeColumn(c)
    ensures forall c :: c in m ==> m[c] == Summary(SumDefined(t.rows, c), CountMissing(t.rows, c))
  {
    m := map[];
    for i := 0 to |t.columns|
      invariant forall c :: c in m <==> c in t.columns[..i] && IsRuntimeColumn(c)
      invariant forall c :: c in m ==> m[c] == Summary(SumDefined(t.rows, c), CountMissing(t.rows, c))
    {
      assert t.columns[..i + 1] == t.columns[..i] + [t.columns[i]];
      var col := t.columns[i];
      if IsRuntimeColumn(col) {
        m := m[col := Summary(SumDefined(t.rows, col), CountMissing(t.rows, col))];
      }
    }
    assert t.columns[..|t.columns|] == t.columns;
  }

  // ---------------------------------------------------------------------------
  // Table 1 (lines 165-179)
  // ---------------------------------------------------------------------------

  /** The first summary key Table 1 looks up in vain: for each tool in order,
      its runtime row and then its result row. */
  function MissingKey(tools: seq<string>, runtimeKeys: set<string>, resultKeys: set<string>): (r: Option<string>)
    ensures r.None? <==> forall t :: t in tools ==> RuntimeColumn(t) in runtimeKeys && ResultColumn(t) in resultKeys
  {
    if tools == [] then None
    else if RuntimeColumn(tools[0]) !in runtimeKeys then Some(RuntimeColumn(tools[0]))
    else if ResultColumn(tools[0]) !in resultKeys then Some(ResultColumn(tools[0]))
    else
      assert forall t :: t in tools ==> t == tools[0] || t in tools[1..];
      MissingKey(tools[1..], runtimeKeys, resultKeys)
  }

  /** One line per tool of `all_tools`, in that order and never sorted: the
      runtime figures of the kept rows and the unknown count taken before. */
  method InterestingTable(allTools: seq<string>, unknowns: map<string, nat>, summaries: map<string, Summary>)
    returns (r: Result<seq<Interesting>>)
    ensures r.Err? <==> MissingKey(allTools, summaries.Keys, unknowns.Keys).Some?
    ensures r.Err? ==> r.error == KeyError(MissingKey(allTools, summaries.Keys, unknowns.Keys).value)
    ensures r.Ok? ==> |r.value| == |allTools|
    ensures r.Ok? ==> forall k :: 0 <= k < |allTools| ==>
      && RuntimeColumn(allTools[k]) in summaries && ResultColumn(allTools[k]) in unknowns
      && r.value[k] == Interesting(allTools[k],
                                   summaries[RuntimeColumn(allTools[k])].sum,
                                   summaries[RuntimeColumn(allTools[k])].timeouts,
                                   unknowns[ResultColumn(allTools[k])])
  {
    var table: seq<Interesting> := [];
    for i := 0 to |allTools|
      invariant MissingKey(allTools, summaries.Keys, unknowns.Keys) == MissingKey(allTools[i..], summaries.Keys, unknowns.Keys)
      invariant |table| == i
      invariant forall k :: 0 <= k < i ==>
        && RuntimeColumn(allTools[k]) in summaries && ResultColumn(allTools[k]) in unknowns
        && table[k] == Interesting(allTools[k],
                                   summaries[RuntimeColumn(allTools[k])].sum,
                                   summaries[RuntimeColumn(allTools[k])].timeouts,
                                   unknowns[ResultColumn(allTools[k])])
    {
      var tool := allTools[i];
      assert allTools[i..][1..] == allTools[i + 1..];
      if RuntimeColumn(tool) !in summaries {
        return Err(KeyError(RuntimeColumn(tool)));
      }
      if ResultColumn(tool) !in unknowns {
        return Err(KeyError(ResultColumn(tool)));
      }
      var row := summaries[RuntimeColumn(tool)];
      table := table + [Interesting(tool, row.sum, row.timeouts, unknowns[ResultColumn(tool)])];
    }
    r := Ok(table);
  }

  // ---------------------------------------------------------------------------
  // Wins and losses (lines 193-213)
  // ---------------------------------------------------------------------------

  /** `a < b` on two cells: false when either is NaN. */
  predicate Faster(a: Option<real>, b: Option<real>) {
    a.Some? && b.Some? && a.value < b.value
  }

  function FasterIn(left: string, right: string): Row -> bool {
    (r: Row) => Faster(RuntimeOf(r, left), RuntimeOf(r, right))
  }

  function TimeoutIn(col: string, lim: Limits): Row -> bool {
    (r: Row) => RuntimeOf(r, col) == Some(lim.timeoutVal)
  }

  /** Neither runtime is smaller than the other. */
  predicate Tied(r: Row, left: string, right: string) {
    !Faster(RuntimeOf(r, left), RuntimeOf(r, right)) && !Faster(RuntimeOf(r, right), RuntimeOf(r, left))
  }

  /** The comparison of the `left` runtimes with the `right` ones (lines 207-213). */
  function Compare(rows: seq<Row>, left: string, right: string, lim: Limits): WinLoss {
    var leftOverRight := Filter(rows, FasterIn(left, right));
    var rightOverLeft := Filter(rows, FasterIn(right, left));
    WinLoss(right,
            |leftOverRight|, Count(leftOverRight, TimeoutIn(right, lim)),
            |rightOverLeft|, Count(rightOverLeft, TimeoutIn(left, lim)))
  }

  function WonAgainstTimeout(left: string, right: string, lim: Limits): Row -> bool {
    (r: Row) => FasterIn(left, right)(r) && TimeoutIn(right, lim)(r)
  }

  /** The wins of `left` over `right` in which `right` sat at `TIMEOUT_VAL`
      are the rows satisfying both tests, and they are among the wins. */
  lemma WinsAgainstTimeout(rows: seq<Row>, left: string, right: string, lim: Limits)
    ensures Count(Filter(rows, FasterIn(left, right)), TimeoutIn(right, lim))
         == Count(rows, WonAgainstTimeout(left, right, lim))
         <= Count(rows, FasterIn(left, right))
  {
    FilterFilter(rows, FasterIn(left, right), TimeoutIn(right, lim), WonAgainstTimeout(left, right, lim));
    FilterLength(Filter(rows, FasterIn(left, right)), TimeoutIn(right, lim));
    FilterLength(rows, WonAgainstTimeout(left, right, lim));
    CountMonotone(rows, WonAgainstTimeout(left, right, lim), FasterIn(left, right));
  }

  /** Wins are the rows where `left` is faster, losses those where `right` is;
      wins-timeouts are the wins where `right` sits at `TIMEOUT_VAL` and
      loses-timeouts the losses where `left` does, so neither exceeds the
      count it is part of. */
  lemma CompareCounts(rows: seq<Row>, left: string, right: string, lim: Limits)
    ensures var w := Compare(rows, left, right, lim);
      && w.column == right
      && w.wins == Count(rows, FasterIn(left, right))
      && w.loses == Count(rows, FasterIn(right, left))
      && w.winsTimeouts == Count(rows, WonAgainstTimeout(left, right, lim))
      && w.losesTimeouts == Count(rows, WonAgainstTimeout(right, left, lim))
      && w.winsTimeouts <= w.wins && w.losesTimeouts <= w.loses
  {
    FilterLength(rows, FasterIn(left, right));
    FilterLength(rows, FasterIn(right, left));
    WinsAgainstTimeout(rows, left, right, lim);
    WinsAgainstTimeout(rows, right, left, lim);
  }

  /** Wins and losses together are at most the number of rows, with equality
      exactly when no row is a tie. */
  lemma CompareTies(rows: seq<Row>, left: string, right: string, lim: Limits)
    ensures var w := Compare(rows, left, right, lim);
      && w.wins + w.loses <= |rows|
      && (w.wins + w.loses == |rows| <==> forall k :: 0 <= k < |rows| ==> !Tied(rows[k], left, right))
  {
    FilterLength(rows, FasterIn(left, right));
    FilterLength(rows, FasterIn(right, left));
    CountDisjoint(rows, FasterIn(left, right), FasterIn(right, left));
    assert forall k :: 0 <= k < |rows| ==> rows[k] in rows;
    assert (forall x :: x in rows ==> FasterIn(left, right)(x) || FasterIn(right, left)(x))
       <==> (forall k :: 0 <= k < |rows| ==> !Tied(rows[k], left, right));
  }

  /** Once runtimes are sanitised, a tie is exactly a row where the two tools
      took the same time. */
  lemma TiesAfterSanitising(rows: seq<Row>, cols: seq<string>, left: string, right: string, lim: Limits)
    requires left in cols && IsRuntimeColumn(left) && right in cols && IsRuntimeColumn(right)
    ensures forall k :: 0 <= k < |rows| ==>
      (Tied(Sanitized(rows, cols, lim)[k], left, right) <==>
       RuntimeOf(Sanitized(rows, cols, lim)[k], left) == RuntimeOf(Sanitized(rows, cols, lim)[k], right))
  {
    SanitizedIsDefined(rows, cols, lim);
  }

  /** With the script's constants, a run that timed out, sanitised to
      `TIMEOUT_VAL`, loses to every run that finished within `TIMEOUT`,
      because `TIMEOUT * 1.1` exceeds `TIMEOUT`. */
  lemma TimedOutLosesToFinished(finished: Option<real>, timedOut: Option<real>)
    requires finished.Some? && finished.value <= TIMEOUT as real
    requires timedOut.None?
    ensures Faster(SanitizeCell(finished, SourceLimits), SanitizeCell(timedOut, SourceLimits))
  {
    SanitizeCellCases(finished, SourceLimits);
    SanitizeCellCases(timedOut, SourceLimits);
  }

  /** One comparison per tool of `all_tools` other than `main`, in that order
      (lines 194-198). */
  method CompareMethods(main: string, allTools: seq<string>) returns (pairs: seq<(string, string)>)
    ensures |pairs| == |Others(allTools, main)|
    ensures forall k :: 0 <= k < |pairs| ==>
      pairs[k] == (RuntimeColumn(main), RuntimeColumn(Others(allTools, main)[k]))
  {
    pairs := [];
    for i := 0 to |allTools|
      invariant |pairs| == |Others(allTools[..i], main)|
      invariant forall k :: 0 <= k < |pairs| ==>
        pairs[k] == (RuntimeColumn(main), RuntimeColumn(Others(allTools[..i], main)[k]))
    {
      OthersSnoc(allTools, i, main);
      if allTools[i] == main {
        continue;
      }
      pairs := pairs + [(RuntimeColumn(main), RuntimeColumn(allTools[i]))];
    }
    assert allTools[..|allTools|] == allTools;
  }

  /** Table 2: one comparison line per pair, in order (lines 205-213). */
  method WinTable(rows: seq<Row>, pairs: seq<(string, string)>, lim: Limits) returns (table: seq<WinLoss>)
    ensures |table| == |pairs|
    ensures forall k :: 0 <= k < |pairs| ==> table[k] == Compare(rows, pairs[k].0, pairs[k].1, lim)
  {
    table := [];
    for i := 0 to |pairs|
      invariant |table| == i
      invariant forall k :: 0 <= k < i ==> table[k] == Compare(rows, pairs[k].0, pairs[k].1, lim)
    {
      var (left, right) := pairs[i];
      var leftOverRight := Filter(rows, FasterIn(left, right));
      var rightTimeouts := Filter(leftOverRight, TimeoutIn(right, lim));
      var rightOverLeft := Filter(rows, FasterIn(right, left));
      var leftTimeouts := Filter(rightOverLeft, TimeoutIn(left, lim));
      CompareByLengths(rows, left, right, lim);
      table := table + [WinLoss(right, |leftOverRight|, |rightTimeouts|, |rightOverLeft|, |leftTimeouts|)];
    }
  }

  /** The timeout counts of a comparison are the lengths of the selections
      `len(left_over_right[left_over_right[right] == TIMEOUT_VAL])`. */
  lemma CompareByLengths(rows: seq<Row>, left: string, right: string, lim: Limits)
    ensures var leftOverRight := Filter(rows, FasterIn(left, right));
      var rightOverLeft := Filter(rows, FasterIn(right, left));
      Compare(rows, left, right, lim)
        == WinLoss(right, |leftOverRight|, |Filter(leftOverRight, TimeoutIn(right, lim))|,
                   |rightOverLeft|, |Filter(rightOverLeft, TimeoutIn(left, lim))|)
  {
    FilterLength(Filter(rows, FasterIn(left, right)), TimeoutIn(right, lim));
    FilterLength(Filter(rows, FasterIn(right, left)), TimeoutIn(left, lim));
  }

  // ---------------------------------------------------------------------------
  // Instances one tool alone solves, or none does (lines 287-317)
  // ---------------------------------------------------------------------------

  /** Column `col` is left out of `only_solves(engine)`'s test: it is not a
      runtime column, or `engine` occurs in its name (`re.search(engine, col)`). */
  predicate Exempt(col: string, engine: string) {
    !IsRuntimeColumn(col) || Contains(col, engine)
  }

  /** `engine` finished and every runtime column of `cols` that is not exempt
      sits at `TIMEOUT_VAL`. */
  function OnlySolvesPred(cols: seq<string>, engine: string, lim: Limits): Row -> bool {
    (r: Row) =>
      RuntimeOf(r, RuntimeColumn(engine)) != Some(lim.timeoutVal) &&
      forall c :: c in cols && !Exempt(c, engine) ==> RuntimeOf(r, c) == Some(lim.timeoutVal)
  }

  /** Every runtime column of `cols` sits at `TIMEOUT_VAL`. */
  function NoneSolvesPred(cols: seq<string>, lim: Limits): Row -> bool {
    (r: Row) => forall c :: c in cols && IsRuntimeColumn(c) ==> RuntimeOf(r, c) == Some(lim.timeoutVal)
  }

  /** `only_solves(df, engine)`: the engine's column must exist; the selection
      is narrowed one column at a time. */
  method OnlySolves(t: Table, engine: string, lim: Limits) returns (res: seq<Row>)
    requires RuntimeColumn(engine) in t.columns
    ensures res == Filter(t.rows, OnlySolvesPred(t.columns, engine, lim))
  {
    res := Filter(t.rows, (r: Row) => RuntimeOf(r, RuntimeColumn(engine)) != Some(lim.timeoutVal));
    FilterSame(t.rows, (r: Row) => RuntimeOf(r, RuntimeColumn(engine)) != Some(lim.timeoutVal),
               OnlySolvesPred(t.columns[..0], engine, lim));
    for i := 0 to |t.columns|
      invariant res == Filter(t.rows, OnlySolvesPred(t.columns[..i], engine, lim))
    {
      var col := t.columns[i];
      OnlySolvesStep(t.rows, t.columns, i, engine, lim);
      if IsRuntimeColumn(col) && !Contains(col, engine) {
        res := Filter(res, TimeoutIn(col, lim));
      }
    }
    assert t.columns[..|t.columns|] == t.columns;
  }

  /** Narrowing `only_solves` by one more column of `cols`. */
  lemma OnlySolvesStep(rows: seq<Row>, cols: seq<string>, i: nat, engine: string, lim: Limits)
    requires i < |cols|
    ensures Filter(rows, OnlySolvesPred(cols[..i + 1], engine, lim))
         == if !Exempt(cols[i], engine) then Filter(Filter(rows, OnlySolvesPred(cols[..i], engine, lim)), TimeoutIn(cols[i], lim))
            else Filter(rows, OnlySolvesPred(cols[..i], engine, lim))
  {
    assert forall c :: c in cols[..i + 1] <==> c in cols[..i] || c == cols[i] by {
      assert cols[..i + 1] == cols[..i] + [cols[i]];
    }
    if !Exempt(cols[i], engine) {
      FilterFilter(rows, OnlySolvesPred(cols[..i], engine, lim), TimeoutIn(cols[i], lim),
                   OnlySolvesPred(cols[..i + 1], engine, lim));
    } else {
      FilterSame(rows, OnlySolvesPred(cols[..i], engine, lim), OnlySolvesPred(cols[..i + 1], engine, lim));
    }
  }

  /** `none_solves(df)`: narrowed one runtime column at a time. */
  method NoneSolves(t: Table, lim: Limits) returns (res: seq<Row>)
    ensures res == Filter(t.rows, NoneSolvesPred(t.columns, lim))
  {
    res := t.rows;
    FilterAll(t.rows, NoneSolvesPred(t.columns[..0], lim));
    for i := 0 to |t.columns|
      invariant res == Filter(t.rows, NoneSolvesPred(t.columns[..i], lim))
    {
      var col := t.columns[i];
      NoneSolvesStep(t.rows, t.columns, i, lim);
      if IsRuntimeColumn(col) {
        res := Filter(res, TimeoutIn(col, lim));
      }
    }
    assert t.columns[..|t.columns|] == t.columns;
  }

  /** Narrowing `none_solves` by one more column of `cols`. */
  lemma NoneSolvesStep(rows: seq<Row>, cols: seq<string>, i: nat, lim: Limits)
    requires i < |cols|
    ensures Filter(rows, NoneSolvesPred(cols[..i + 1], lim))
         == if IsRuntimeColumn(cols[i]) then Filter(Filter(rows, NoneSolvesPred(cols[..i], lim)), TimeoutIn(cols[i], lim))
            else Filter(rows, NoneSolvesPred(cols[..i], lim))
  {
    assert forall c :: c in cols[..i + 1] <==> c in cols[..i] || c == cols[i] by {
      assert cols[..i + 1] == cols[..i] + [cols[i]];
    }
    if IsRuntimeColumn(cols[i]) {
      FilterFilter(rows, NoneSolvesPred(cols[..i], lim), TimeoutIn(cols[i], lim), NoneSolvesPred(cols[..i + 1], lim));
    } else {
      FilterSame(rows, NoneSolvesPred(cols[..i], lim), NoneSolvesPred(cols[..i + 1], lim));
    }
  }

  /** No instance is both one the engine alone solves and one nobody solves;
      both selections keep the table's order. */
  lemma OnlyAndNoneDisjoint(t: Table, engine: string, lim: Limits)
    requires RuntimeColumn(engine) in t.columns
    ensures forall r :: r in Filter(t.rows, OnlySolvesPred(t.columns, engine, lim)) ==>
      r !in Filter(t.rows, NoneSolvesPred(t.columns, lim))
  {
    RuntimeColumnIsRuntime(engine);
    FilterMembers(t.rows, OnlySolvesPred(t.columns, engine, lim));
    FilterMembers(t.rows, NoneSolvesPred(t.columns, lim));
    forall r | r in Filter(t.rows, OnlySolvesPred(t.columns, engine, lim))
      ensures r !in Filter(t.rows, NoneSolvesPred(t.columns, lim))
    {
      assert OnlySolvesPred(t.columns, engine, lim)(r);
      assert !NoneSolvesPred(t.columns, lim)(r);
    }
  }

  /** Every column whose name starts with the engine's name is exempt, so
      engine `z3` is not required to have timed out in
      `z3-noodler-common-runtime`. */
  lemma LongerNamesExempt(engine: string, rest: string)
    ensures Exempt(engine + rest, engine)
  {
    ContainsPrefix(engine, rest);
  }

  /** The runtime an exempt column holds, other than the engine's own, has no
      bearing on whether the engine alone solved an instance. */
  lemma OnlySolvesIgnoresExempt(cols: seq<string>, engine: string, lim: Limits, r: Row, col: string, v: Option<real>)
    requires Exempt(col, engine) && col != RuntimeColumn(engine)
    ensures OnlySolvesPred(cols, engine, lim)(r)
        == OnlySolvesPred(cols, engine, lim)(r.(runtimes := r.runtimes[col := v]))
  {
    var r' := r.(runtimes := r.runtimes[col := v]);
    assert forall c :: c != col ==> RuntimeOf(r', c) == RuntimeOf(r, c);
  }

  /** A runtime column that is not exempt and does not sit at `TIMEOUT_VAL`
      keeps the instance out of the engine's selection. */
  lemma OnlySolvesNeedsOthersTimedOut(cols: seq<string>, engine: string, lim: Limits, r: Row, col: string)
    requires col in cols && !Exempt(col, engine) && RuntimeOf(r, col) != Some(lim.timeoutVal)
    ensures !OnlySolvesPred(cols, engine, lim)(r)
  {
  }

  // ---------------------------------------------------------------------------
  // The whole evaluation
  // ---------------------------------------------------------------------------

  /** The first error `gen_evaluation` raises: the main tool's result column
      is missing (line 148); a tool's summary row is missing (lines 167-168);
      no benchmark name is given, so `"Table 1: " + None` fails (line 182);
      the main tool's runtime column is missing while there is something to
      compare it with (line 207). */
  function EvaluationError(cols: seq<string>, main: string, allTools: seq<string>, benchmark: Option<string>): Option<Error> {
    if ResultColumn(main) !in cols then Some(KeyError(ResultColumn(main)))
    else match MissingKey(allTools, RuntimeColumns(cols), ResultColumnSet(cols))
      case Some(key) => Some(KeyError(key))
      case None =>
        if benchmark.None? then Some(TypeError)
        else if Others(allTools, main) != [] && RuntimeColumn(main) !in cols then Some(KeyError(RuntimeColumn(main)))
        else None
  }

  /** The first error of the whole of `gen_evaluation`: a result column
      holding floats stops the strip loop (line 144) before anything else. */
  function EvaluateError(cols: seq<string>, text: set<string>, main: string, allTools: seq<string>,
                         benchmark: Option<string>): Option<Error> {
    if StripReach(cols, text) < |cols| then Some(AttributeError)
    else EvaluationError(cols, main, allTools, benchmark)
  }

  function ResultColumnSet(cols: seq<string>): set<string> {
    set c | c in cols && IsResultColumn(c)
  }

  /** What each part of the report is, for a table whose result labels have
      been stripped to `rows`. */
  ghost predicate IsReport(rep: Report, cols: seq<string>, rows: seq<Row>, main: string,
                           allTools: seq<string>, benchmark: Option<string>, lim: Limits)
  {
    var kept := DropUnknown(rows, ResultColumn(main));
    && TablesOf(rep, cols, rows, kept, allTools)
    && ComparisonsOf(rep.wins, rep.plots, rep.onlySolves, rep.unsolvable,
                     cols, Sanitized(kept, cols, lim), main, allTools, benchmark, lim)
  }

  /** Unknown counts are taken on every row; the runtime figures and Table 1
      on the rows that are `kept`. */
  ghost predicate TablesOf(rep: Report, cols: seq<string>, rows: seq<Row>, kept: seq<Row>, allTools: seq<string>) {
    && (forall c :: c in rep.unknowns <==> c in cols && IsResultColumn(c))
    && (forall c :: c in rep.unknowns ==> rep.unknowns[c] == CountUnknown(rows, c))
    && (forall c :: c in rep.summaries <==> c in cols && IsRuntimeColumn(c))
    && (forall c :: c in rep.summaries ==> rep.summaries[c] == Summary(SumDefined(kept, c), CountMissing(kept, c)))
    && |rep.interesting| == |allTools|
    && (forall k :: 0 <= k < |allTools| ==>
          rep.interesting[k] == Interesting(allTools[k],
                                            SumDefined(kept, RuntimeColumn(allTools[k])),
                                            CountMissing(kept, RuntimeColumn(allTools[k])),
                                            CountUnknown(rows, ResultColumn(allTools[k]))))
  }

  /** Table 2, the plot parameters and the two selections, all on the
      sanitised rows `clean`. */
  ghost predicate ComparisonsOf(wins: seq<WinLoss>, plots: seq<Plots.PlotParams>, onlySolves: seq<seq<Row>>,
                                unsolvable: seq<Row>, cols: seq<string>, clean: seq<Row>, main: string,
                                allTools: seq<string>, benchmark: Option<string>, lim: Limits)
  {
    var others := Others(allTools, main);
    && |wins| == |others|
    && (forall k :: 0 <= k < |others| ==>
          wins[k] == Compare(clean, RuntimeColumn(main), RuntimeColumn(others[k]), lim))
    && |plots| == |others|
    && (forall k :: 0 <= k < |others| ==> plots[k] == Plots.FinishedParams(main, others[k], benchmark, lim))
    && |onlySolves| == |allTools|
    && (forall k :: 0 <= k < |allTools| ==> onlySolves[k] == Filter(clean, OnlySolvesPred(cols, allTools[k], lim)))
    && unsolvable == Filter(clean, NoneSolvesPred(cols, lim))
  }

  /** `gen_evaluation(df, main_tool, all_tools, benchmark_name)`. The caller's
      frame has its result labels stripped whatever happens next; the rest
      works on a new frame without the rows the main tool left unknown. */
  method Evaluate(df: Frame, main: string, allTools: seq<string>, benchmark: Option<string>, lim: Limits)
    returns (r: Result<Report>)
    requires df.Valid()
    modifies df
    ensures df.Valid() && df.columns == old(df.columns) && df.text == old(df.text)
    ensures df.rows == StripResults(old(df.rows), old(df.columns)[..StripReach(old(df.columns), old(df.text))])
    ensures r.Err? <==> EvaluateError(old(df.columns), old(df.text), main, allTools, benchmark).Some?
    ensures r.Err? ==> r.error == EvaluateError(old(df.columns), old(df.text), main, allTools, benchmark).value
    ensures r.Ok? ==> IsReport(r.value, old(df.columns), df.rows, main, allTools, benchmark, lim)
  {
    var unknowns := df.StripAndCountUnknowns();
    if unknowns.Err? {
      return Err(unknowns.error);
    }
    assert old(df.columns)[..|old(df.columns)|] == old(df.columns);
    r := Derive(df.Value(), unknowns.value, main, allTools, benchmark, lim);
  }

  /** Everything `gen_evaluation` does after stripping the result labels. */
  method Derive(t: Table, unknowns: map<string, nat>, main: string,
                allTools: seq<string>, benchmark: Option<string>, lim: Limits)
    returns (r: Result<Report>)
    requires Distinct(t.columns)
    requires forall c :: c in unknowns <==> c in t.columns && IsResultColumn(c)
    requires forall c :: c in unknowns ==> unknowns[c] == CountUnknown(t.rows, c)
    ensures r.Err? <==> EvaluationError(t.columns, main, allTools, benchmark).Some?
    ensures r.Err? ==> r.error == EvaluationError(t.columns, main, allTools, benchmark).value
    ensures r.Ok? ==> IsReport(r.value, t.columns, t.rows, main, allTools, benchmark, lim)
  {
    if ResultColumn(main) !in t.columns {
      return Err(KeyError(ResultColumn(main)));
    }
    var kept := DropUnknown(t.rows, ResultColumn(main));
    var summaries := RuntimeSummaries(t.(rows := kept));
    SameKeys(summaries, unknowns, t.columns);
    var interesting := InterestingTable(allTools, unknowns, summaries);
    if interesting.Err? {
      return Err(interesting.error);
    }
    if benchmark.None? {
      return Err(TypeError);
    }
    if Others(allTools, main) != [] && RuntimeColumn(main) !in t.columns {
      return Err(KeyError(RuntimeColumn(main)));
    }
    var wins, plots, onlySolves, unsolvable := Compared(t.(rows := kept), main, allTools, benchmark, lim);
    r := Ok(Report(unknowns, summaries, interesting.value, wins, plots, onlySolves, unsolvable));
  }

  lemma SameKeys(summaries: map<string, Summary>, unknowns: map<string, nat>, cols: seq<string>)
    requires forall c :: c in summaries <==> c in cols && IsRuntimeColumn(c)
    requires forall c :: c in unknowns <==> c in cols && IsResultColumn(c)
    ensures summaries.Keys == RuntimeColumns(cols) && unknowns.Keys == ResultColumnSet(cols)
  {
  }

  /** Lines 187-317 past the tables: a new frame of the kept rows has its
      runtimes sanitised, then gives Table 2, the plot parameters and the two
      selections. */
  method Compared(t: Table, main: string, allTools: seq<string>,
                  benchmark: Option<string>, lim: Limits)
    returns (wins: seq<WinLoss>, plots: seq<Plots.PlotParams>, onlySolves: seq<seq<Row>>, unsolvable: seq<Row>)
    requires Distinct(t.columns)
    requires forall tool :: tool in allTools ==> RuntimeColumn(tool) in t.columns
    requires Others(allTools, main) != [] ==> RuntimeColumn(main) in t.columns
    ensures ComparisonsOf(wins, plots, onlySolves, unsolvable, t.columns, Sanitized(t.rows, t.columns, lim),
                          main, allTools, benchmark, lim)
  {
    var frame := new Frame(t);
    frame.SanitizeRuntimes(lim);
    var clean := frame.Value();
    var pairs := CompareMethods(main, allTools);
    wins := WinTable(clean.rows, pairs, lim);
    plots := Plots.PlotParamsList(main, allTools, benchmark, lim);
    onlySolves := OnlySolvesEach(clean, allTools, lim);
    unsolvable := NoneSolves(clean, lim);
  }

  /** `only_solves` for every tool of `all_tools`, in order (lines 303-306). */
  method OnlySolvesEach(t: Table, allTools: seq<string>, lim: Limits) returns (selections: seq<seq<Row>>)
    requires forall tool :: tool in allTools ==> RuntimeColumn(tool) in t.columns
    ensures |selections| == |allTools|
    ensures forall k :: 0 <= k < |allTools| ==> selections[k] == Filter(t.rows, OnlySolvesPred(t.columns, allTools[k], lim))
  {
    selections := [];
    for i := 0 to |allTools|
      invariant |selections| == i
      invariant forall k :: 0 <= k < i ==> selections[k] == Filter(t.rows, OnlySolvesPred(t.columns, allTools[k], lim))
    {
      var only := OnlySolves(t, allTools[i], lim);
      selections := selections + [only];
    }
  }
}
