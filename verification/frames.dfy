/** The data model of a benchmark table: one row per benchmark instance with,
    for every tool, a result column `<tool>-result` and a runtime column
    `<tool>-runtime`.  A cell that the CSV reader turned into NaN is `None`; a
    column a row has no entry for reads as NaN too, which is what `pd.concat`
    puts into the columns one of the concatenated frames lacks.

    The two in-place column rewrites of the evaluation live here: stripping the
    result labels and sanitising the runtimes. */
module Frames {
  import opened Common

  datatype Row = Row(
    name: string,
    benchmark: string,
    results: map<string, Option<string>>,
    runtimes: map<string, Option<real>>)

  /** A frame as a value: its column names in order, its rows in order, and
      the columns pandas holds as strings (`object` dtype) in `text`; every
      other column holds floats. A column keeps its type when rows are
      selected or dropped, and `pd.concat` gives strings to a column that
      holds strings in any of its parts. */
  datatype Table = Table(columns: seq<string>, rows: seq<Row>, text: set<string>)

  /** `TIMEOUT_VAL` (what a missing runtime becomes) and `TIME_MIN` (the floor
      for runtimes). Only their order is relied on. */
  datatype Bounds = Bounds(timeoutVal: real, timeMin: real)
  type Limits = b: Bounds | 0.0 < b.timeMin < b.timeoutVal witness Bounds(132.0, 0.01)

  /** `TIMEOUT = 120`, `TIMEOUT_VAL = TIMEOUT * 1.1`, `TIME_MIN = 0.01`
      (the source computes the product in binary floating point). */
  const TIMEOUT: nat := 120
  const SourceLimits: Limits := Bounds(TIMEOUT as real * 1.1, 0.01)

  function ResultOf(r: Row, col: string): Option<string> {
    if col in r.results then r.results[col] else None
  }

  function RuntimeOf(r: Row, col: string): Option<real> {
    if col in r.runtimes then r.runtimes[col] else None
  }

  function ResultColumn(tool: string): string { tool + "-result" }
  function RuntimeColumn(tool: string): string { tool + "-runtime" }

  /** `re.search('-result$', col)` */
  predicate IsResultColumn(col: string) { EndsWith(col, "-result") }
  /** `re.search('-runtime$', col)` */
  predicate IsRuntimeColumn(col: string) { EndsWith(col, "-runtime") }

  /** A result column's name never names a runtime column. */
  lemma ResultIsNotRuntime(a: string, b: string)
    ensures ResultColumn(a) != RuntimeColumn(b)
  {
    assert ResultColumn(a)[|ResultColumn(a)| - 1] == 't';
    assert RuntimeColumn(b)[|RuntimeColumn(b)| - 1] == 'e';
  }

  lemma RuntimeColumnIsRuntime(tool: string)
    ensures IsRuntimeColumn(RuntimeColumn(tool))
  {
    EndsWithAppend(tool, "-runtime");
  }

  /** The tools of `tools` other than `main`, in order (lines 195-198). */
  function Others(tools: seq<string>, main: string): seq<string> {
    Filter(tools, IsNot(main))
  }

  function IsNot(main: string): string -> bool {
    (t: string) => t != main
  }

  /** Going through the tools one more step adds that tool unless it is `main`. */
  lemma OthersSnoc(tools: seq<string>, i: nat, main: string)
    requires i < |tools|
    ensures Others(tools[..i + 1], main)
         == Others(tools[..i], main) + (if tools[i] != main then [tools[i]] else [])
  {
    assert tools[..i + 1] == tools[..i] + [tools[i]];
    FilterAppend(tools[..i], [tools[i]], IsNot(main));
  }

  /** Every tool other than `main` has its entry, as often as it is listed,
      and `main` has none. */
  lemma {:induction false} OthersCount(tools: seq<string>, main: string)
    ensures |Others(tools, main)| + Count(tools, IsTool(main)) == |tools|
    ensures main !in Others(tools, main)
    ensures forall t :: t in tools && t != main ==> t in Others(tools, main)
  {
    FilterLength(tools, IsNot(main));
    CountDisjoint(tools, IsNot(main), IsTool(main));
    FilterMembers(tools, IsNot(main));
  }

  function IsTool(main: string): string -> bool {
    (t: string) => t == main
  }

  predicate Distinct(cols: seq<string>) {
    forall i, j :: 0 <= i < j < |cols| ==> cols[i] != cols[j]
  }

  /** `df[col] = ...` on a column that may not exist yet: a new column goes last. */
  function AddColumn(cols: seq<string>, col: string): (r: seq<string>)
    ensures col in r
    ensures forall c :: c in cols ==> c in r
    ensures forall c :: c in r ==> c in cols || c == col
    ensures Distinct(cols) ==> Distinct(r)
    ensures |cols| <= |r| && r[..|cols|] == cols
    ensures |r| == if col in cols then |cols| else |cols| + 1
    ensures col !in cols ==> r[|cols|] == col
  {
    if col in cols then cols else cols + [col]
  }

  // ---------------------------------------------------------------------------
  // Reading a cell
  // ---------------------------------------------------------------------------

  /** The strings pandas reads as NaN by default (`keep_default_na` is left
      on), the empty field among them. */
  const DefaultNa: set<string> :=
    {"", "#N/A", "#N/A N/A", "#NA", "-1.#IND", "-1.#QNAN", "-NaN", "-nan", "1.#IND", "1.#QNAN",
     "<NA>", "N/A", "NA", "NULL", "NaN", "None", "n/a", "nan", "null"}

  /** The strings `read_csv` reads as NaN (line 36): the three it is given
      and pandas' defaults. */
  predicate IsNaToken(raw: string) {
    raw == "ERR" || raw == "TO" || raw == "MISSING" || raw in DefaultNa
  }

  /** A result cell as read: one of the NaN strings becomes missing. */
  function ReadResultCell(raw: string): Option<string> {
    if IsNaToken(raw) then None else Some(raw)
  }

  /** A runtime cell as read, where `parsed` is the number the reader's float
      parser makes of `raw`. */
  function ReadRuntimeCell(raw: string, parsed: real): Option<real> {
    if IsNaToken(raw) then None else Some(parsed)
  }

  // ---------------------------------------------------------------------------
  // Row predicates (named, so that every use of one is the same function value)
  // ---------------------------------------------------------------------------

  /** The result in `col` is the label "unknown" (a NaN cell never is). */
  function UnknownIn(col: string): Row -> bool {
    (r: Row) => ResultOf(r, col) == Some("unknown")
  }

  /** The runtime in `col` is missing (NaN). */
  function MissingIn(col: string): Row -> bool {
    (r: Row) => RuntimeOf(r, col).None?
  }

  /** The number of rows whose `col` result is "unknown". */
  function CountUnknown(rows: seq<Row>, col: string): nat {
    Count(rows, UnknownIn(col))
  }

  /** The number of rows whose `col` runtime is missing. */
  function CountMissing(rows: seq<Row>, col: string): nat {
    Count(rows, MissingIn(col))
  }

  /** Every cell read from one of the NaN strings is missing, whichever it
      was: the missing-runtime count of a column is the number of `ERR`, `TO`,
      `MISSING`, empty and other default NaN cells it was read from. */
  lemma MissingCountsEveryNaToken(rows: seq<Row>, col: string, raws: seq<string>, parsed: seq<real>)
    requires |raws| == |rows| == |parsed|
    requires forall k :: 0 <= k < |rows| ==> RuntimeOf(rows[k], col) == ReadRuntimeCell(raws[k], parsed[k])
    ensures CountMissing(rows, col) == Count(raws, IsNaToken)
  {
    CountPointwise(rows, raws, MissingIn(col), IsNaToken);
  }

  // ---------------------------------------------------------------------------
  // Stripping result labels (line 144)
  // ---------------------------------------------------------------------------

  function StripCell(c: Option<string>): Option<string> {
    match c
    case None => None
    case Some(s) => Some(Strip(s))
  }

  function StripRowColumn(r: Row, col: string): Row {
    if col in r.results then r.(results := r.results[col := StripCell(r.results[col])]) else r
  }

  /** `df[col] = df[col].str.strip()` */
  function StripColumn(rows: seq<Row>, col: string): seq<Row> {
    seq(|rows|, k requires 0 <= k < |rows| => StripRowColumn(rows[k], col))
  }

  /** Stripping one column leaves the "unknown" count of every other as it was. */
  lemma StripOtherColumn(rows: seq<Row>, col: string, c: string)
    requires c != col
    ensures CountUnknown(StripColumn(rows, col), c) == CountUnknown(rows, c)
  {
    CountPointwise(StripColumn(rows, col), rows, UnknownIn(c), UnknownIn(c));
  }

  /** A raw result cell that is counted as unknown: not one of the NaN
      strings, and "unknown" once the padding around it is gone. */
  predicate ReadsUnknown(raw: string) {
    !IsNaToken(raw) && Strip(raw) == "unknown"
  }

  /** The unknown count of a stripped result column is the number of raw
      cells that read "unknown" up to padding; a NaN string never counts. */
  lemma UnknownCountsReadLabels(rows: seq<Row>, col: string, raws: seq<string>)
    requires |raws| == |rows|
    requires forall k :: 0 <= k < |rows| ==> ResultOf(rows[k], col) == ReadResultCell(raws[k])
    ensures CountUnknown(StripColumn(rows, col), col) == Count(raws, ReadsUnknown)
  {
    CountPointwise(StripColumn(rows, col), raws, UnknownIn(col), ReadsUnknown);
  }

  /** The rows after stripping, in order, every result column among `cols`. */
  function StripResults(rows: seq<Row>, cols: seq<string>): (r: seq<Row>)
    ensures |r| == |rows|
    decreases |cols|
  {
    if cols == [] then rows
    else
      var before := StripResults(rows, cols[..|cols| - 1]);
      var col := cols[|cols| - 1];
      if IsResultColumn(col) then StripColumn(before, col) else before
  }

  /** After stripping, a result column of `cols` holds the stripped labels and
      every other cell is as it was. */
  lemma {:induction false} StripResultsAt(rows: seq<Row>, cols: seq<string>, k: nat, c: string)
    requires k < |rows|
    ensures var r := StripResults(rows, cols)[k];
      && r.name == rows[k].name && r.benchmark == rows[k].benchmark
      && r.runtimes == rows[k].runtimes
      && ResultOf(r, c) == if c in cols && IsResultColumn(c) then StripCell(ResultOf(rows[k], c))
                           else ResultOf(rows[k], c)
  {
    if cols != [] {
      var init := cols[..|cols| - 1];
      StripResultsAt(rows, init, k, c);
      assert c in cols <==> c in init || c == cols[|cols| - 1];
      match ResultOf(rows[k], c)
      case None =>
      case Some(s) => StripIdempotent(s);
    }
  }

  // ---------------------------------------------------------------------------
  // Sanitising runtimes (lines 187-190)
  // ---------------------------------------------------------------------------

  /** `fillna(TIMEOUT_VAL)` followed by raising values below `TIME_MIN` to it. */
  function SanitizeCell(c: Option<real>, lim: Limits): (r: Option<real>)
    ensures r.Some? && r.value >= lim.timeMin
  {
    var filled := if c.None? then lim.timeoutVal else c.value;
    Some(if filled < lim.timeMin then lim.timeMin else filled)
  }

  function SanitizeRowColumn(r: Row, col: string, lim: Limits): Row {
    r.(runtimes := r.runtimes[col := SanitizeCell(RuntimeOf(r, col), lim)])
  }

  /** One column sanitised, in place. */
  function SanitizeColumn(rows: seq<Row>, col: string, lim: Limits): seq<Row> {
    seq(|rows|, k requires 0 <= k < |rows| => SanitizeRowColumn(rows[k], col, lim))
  }

  /** The rows after sanitising, in order, every runtime column among `cols`. */
  function Sanitized(rows: seq<Row>, cols: seq<string>, lim: Limits): (r: seq<Row>)
    ensures |r| == |rows|
    decreases |cols|
  {
    if cols == [] then rows
    else
      var before := Sanitized(rows, cols[..|cols| - 1], lim);
      var col := cols[|cols| - 1];
      if IsRuntimeColumn(col) then SanitizeColumn(before, col, lim) else before
  }

  /** The runtime columns among `cols`. */
  function RuntimeColumns(cols: seq<string>): set<string> {
    set c | c in cols && IsRuntimeColumn(c)
  }

  /** A missing runtime becomes `TIMEOUT_VAL`, a runtime of at least `TIME_MIN`
      is unchanged, a smaller one is raised to `TIME_MIN`. */
  lemma SanitizeCellCases(c: Option<real>, lim: Limits)
    ensures c.None? ==> SanitizeCell(c, lim) == Some(lim.timeoutVal)
    ensures c.Some? && c.value >= lim.timeMin ==> SanitizeCell(c, lim) == c
    ensures c.Some? && c.value < lim.timeMin ==> SanitizeCell(c, lim) == Some(lim.timeMin)
    ensures SanitizeCell(SanitizeCell(c, lim), lim) == SanitizeCell(c, lim)
  {
  }

  /** After sanitising, a runtime column of `cols` holds the sanitised value in
      every row, and nothing else has changed. */
  lemma {:induction false} SanitizedAt(rows: seq<Row>, cols: seq<string>, lim: Limits, k: nat)
    requires k < |rows|
    ensures var r := Sanitized(rows, cols, lim)[k];
      && r.name == rows[k].name && r.benchmark == rows[k].benchmark
      && r.results == rows[k].results
      && r.runtimes.Keys == rows[k].runtimes.Keys + RuntimeColumns(cols)
      && forall c :: c in r.runtimes ==>
           r.runtimes[c] == if c in RuntimeColumns(cols) then SanitizeCell(RuntimeOf(rows[k], c), lim)
                            else rows[k].runtimes[c]
  {
    if cols != [] {
      var init := cols[..|cols| - 1];
      var col := cols[|cols| - 1];
      SanitizedAt(rows, init, lim, k);
      assert forall c :: c in cols <==> c in init || c == col;
      assert RuntimeColumns(cols) == RuntimeColumns(init) + (if IsRuntimeColumn(col) then {col} else {});
      forall c | c in RuntimeColumns(init)
        ensures SanitizeCell(SanitizeCell(RuntimeOf(rows[k], c), lim), lim) == SanitizeCell(RuntimeOf(rows[k], c), lim)
      {
        SanitizeCellCases(RuntimeOf(rows[k], c), lim);
      }
    }
  }

  /** After sanitising, every runtime column holds a defined value of at least
      `TIME_MIN` in every row. */
  lemma SanitizedIsDefined(rows: seq<Row>, cols: seq<string>, lim: Limits)
    ensures |Sanitized(rows, cols, lim)| == |rows|
    ensures forall k, c :: 0 <= k < |rows| && c in cols && IsRuntimeColumn(c) ==>
      RuntimeOf(Sanitized(rows, cols, lim)[k], c).Some? &&
      RuntimeOf(Sanitized(rows, cols, lim)[k], c).value >= lim.timeMin
  {
    forall k, c | 0 <= k < |rows| && c in cols && IsRuntimeColumn(c)
      ensures RuntimeOf(Sanitized(rows, cols, lim)[k], c).Some?
      ensures RuntimeOf(Sanitized(rows, cols, lim)[k], c).value >= lim.timeMin
    {
      SanitizedAt(rows, cols, lim, k);
      assert c in RuntimeColumns(cols);
    }
  }

  /** Sanitising an already sanitised table changes nothing. */
  lemma SanitizedIdempotent(rows: seq<Row>, cols: seq<string>, lim: Limits)
    ensures Sanitized(Sanitized(rows, cols, lim), cols, lim) == Sanitized(rows, cols, lim)
  {
    var once := Sanitized(rows, cols, lim);
    var twice := Sanitized(once, cols, lim);
    forall k | 0 <= k < |rows|
      ensures twice[k] == once[k]
    {
      SanitizedAt(rows, cols, lim, k);
      SanitizedAt(once, cols, lim, k);
      forall c | c in twice[k].runtimes
        ensures twice[k].runtimes[c] == once[k].runtimes[c]
      {
        if c in RuntimeColumns(cols) {
          SanitizeCellCases(RuntimeOf(rows[k], c), lim);
          assert RuntimeOf(once[k], c) == SanitizeCell(RuntimeOf(rows[k], c), lim);
        }
      }
      assert twice[k].runtimes.Keys == once[k].runtimes.Keys;
      assert twice[k].runtimes == once[k].runtimes;
    }
  }

  // ---------------------------------------------------------------------------
  // Where the strip loop stops (line 144)
  // ---------------------------------------------------------------------------

  /** How far along `cols` the strip loop gets: the index of the first
      result column that does not hold strings, on which `df[col].str` raises
      `AttributeError`, or `|cols|` when there is none. */
  function StripReach(cols: seq<string>, text: set<string>): (n: nat)
    ensures n <= |cols|
    ensures forall j :: 0 <= j < n ==> !(IsResultColumn(cols[j]) && cols[j] !in text)
    ensures n < |cols| ==> IsResultColumn(cols[n]) && cols[n] !in text
  {
    if cols == [] then 0
    else if IsResultColumn(cols[0]) && cols[0] !in text then 0
    else 1 + StripReach(cols[1..], text)
  }

  /** The result columns `read_csv` gives strings: those of a file without
      rows (every column of an empty file holds strings) and those with at
      least one label (a column of nothing but NaN holds floats). */
  function ReadText(cols: seq<string>, rows: seq<Row>): set<string> {
    set c | c in cols && IsResultColumn(c) && (rows == [] || exists k :: 0 <= k < |rows| && ResultOf(rows[k], c).Some?)
  }

  /** The column has rows but not one label. */
  predicate NoLabel(rows: seq<Row>, col: string) {
    rows != [] && forall k :: 0 <= k < |rows| ==> ResultOf(rows[k], col).None?
  }

  /** On a table as read from a file, the strip loop fails exactly when some
      result column has rows but no label, and it stops at the first one. */
  lemma ReadStripReach(cols: seq<string>, rows: seq<Row>)
    ensures StripReach(cols, ReadText(cols, rows)) < |cols| <==>
              exists j :: 0 <= j < |cols| && IsResultColumn(cols[j]) && NoLabel(rows, cols[j])
    ensures var n := StripReach(cols, ReadText(cols, rows));
              n < |cols| ==> NoLabel(rows, cols[n]) &&
                             forall j :: 0 <= j < n ==> !(IsResultColumn(cols[j]) && NoLabel(rows, cols[j]))
  {
  }

  // ---------------------------------------------------------------------------
  // A data frame that is changed in place
  // ---------------------------------------------------------------------------

  class Frame {
    var columns: seq<string>
    var rows: seq<Row>
    var text: set<string>

    /** Column names are unique (the CSV reader renames repeated headers). */
    ghost predicate Valid()
      reads this
    {
      Distinct(columns)
    }

    constructor (t: Table)
      ensures columns == t.columns && rows == t.rows && text == t.text
      ensures Distinct(t.columns) ==> Valid()
    {
      columns := t.columns;
      rows := t.rows;
      text := t.text;
    }

    function Value(): Table
      reads this
    {
      Table(columns, rows, text)
    }

    /** Lines 141-145: every result column is stripped in place and, once
        stripped, its "unknown" labels are counted. A result column that
        holds floats stops the loop with `AttributeError`, the columns before
        it already stripped. A stripped column still holds strings. */
    method StripAndCountUnknowns() returns (r: Result<map<string, nat>>)
      requires Valid()
      modifies this
      ensures Valid() && columns == old(columns) && text == old(text)
      ensures rows == StripResults(old(rows), old(columns)[..StripReach(old(columns), old(text))])
      ensures r.Err? <==> StripReach(old(columns), old(text)) < |old(columns)|
      ensures r.Err? ==> r.error == AttributeError
      ensures r.Ok? ==> forall c :: c in r.value <==> c in columns && IsResultColumn(c)
      ensures r.Ok? ==> forall c :: c in r.value ==> r.value[c] == CountUnknown(rows, c)
    {
      var unknowns := map[];
      var i := 0;
      while i < |columns|
        invariant 0 <= i <= StripReach(old(columns), old(text))
        invariant columns == old(columns) && text == old(text)
        invariant rows == StripResults(old(rows), columns[..i])
        invariant forall c :: c in unknowns <==> c in columns[..i] && IsResultColumn(c)
        invariant forall c :: c in unknowns ==> unknowns[c] == CountUnknown(rows, c)
      {
        var col := columns[i];
        assert columns[..i + 1][..i] == columns[..i];
        if IsResultColumn(col) {
          if col !in text {
            return Err(AttributeError);
          }
          var before := rows;
          rows := StripColumn(rows, col);
          forall c | c in unknowns
            ensures CountUnknown(rows, c) == CountUnknown(before, c)
          {
            assert c != col by {
              var j :| 0 <= j < i && columns[j] == c;
            }
            StripOtherColumn(before, col, c);
          }
          unknowns := unknowns[col := CountUnknown(rows, col)];
        }
        i := i + 1;
      }
      assert columns[..i] == columns;
      r := Ok(unknowns);
    }

    /** Lines 187-190: every runtime column is sanitised in place. */
    method SanitizeRuntimes(lim: Limits)
      requires Valid()
      modifies this
      ensures Valid() && columns == old(columns) && text == old(text)
      ensures rows == Sanitized(old(rows), old(columns), lim)
    {
      var i := 0;
      while i < |columns|
        invariant 0 <= i <= |columns| && columns == old(columns) && text == old(text)
        invariant rows == Sanitized(old(rows), columns[..i], lim)
      {
        assert columns[..i + 1][..i] == columns[..i];
        if IsRuntimeColumn(columns[i]) {
          rows := SanitizeColumn(rows, columns[i], lim);
        }
        i := i + 1;
      }
      assert columns[..i] == columns;
    }
  }
}
