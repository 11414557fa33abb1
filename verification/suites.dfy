/** `create_dfs` and `sanity_check`: one table per benchmark suite is tagged
    with its suite name and given the common noodler columns
    `z3-noodler-common-runtime` and `z3-noodler-common-result`, copied from the
    regular noodler for every suite but kaluza, which takes them from the
    under-approximating noodler. The suites are filed into three ordered
    dictionaries (all suites; the normal ones, which are every suite but
    kaluza; the under-approximation ones, leetcode and kaluza) and
    concatenated. */
module Suites {
  import opened Common
  import opened Frames
  import Plots

  const Leetcode: string := "leetcode"
  const Kaluza: string := "kaluza"

  /** The tool name under which both noodler variants are compared. */
  const CommonTool: string := "z3-noodler-common"

  /** The column `df["benchmark"] = benchmark_name` creates (line 331); its
      cells are the rows' `benchmark` field. */
  const BenchmarkColumn: string := "benchmark"

  // ---------------------------------------------------------------------------
  // Ordered dictionaries from suite names to tables
  // ---------------------------------------------------------------------------

  /** A Python `dict`: its entries in insertion order. */
  type Dict = seq<(string, Table)>

  function KeysOf(d: Dict): seq<string> {
    seq(|d|, i requires 0 <= i < |d| => d[i].0)
  }

  function Values(d: Dict): seq<Table> {
    seq(|d|, i requires 0 <= i < |d| => d[i].1)
  }

  predicate DistinctKeys(d: Dict) {
    forall i, j :: 0 <= i < j < |d| ==> d[i].0 != d[j].0
  }

  /** `d[k] = v`: an existing key keeps its place and takes the new value, a
      new key goes last. */
  function Put(d: Dict, k: string, v: Table): (r: Dict)
    ensures |r| == if k in KeysOf(d) then |d| else |d| + 1
    ensures forall i :: 0 <= i < |d| ==> r[i].0 == d[i].0 && r[i].1 == (if d[i].0 == k then v else d[i].1)
    ensures k !in KeysOf(d) ==> r[|d|] == (k, v)
    ensures KeysOf(r) == if k in KeysOf(d) then KeysOf(d) else KeysOf(d) + [k]
    ensures DistinctKeys(d) ==> DistinctKeys(r)
  {
    assert forall i :: 0 <= i < |d| ==> KeysOf(d)[i] == d[i].0;
    if k in KeysOf(d) then seq(|d|, i requires 0 <= i < |d| => if d[i].0 == k then (k, v) else d[i])
    else
      assert KeysOf(d + [(k, v)]) == KeysOf(d) + [k];
      d + [(k, v)]
  }

  /** `d[k]`, or `None` when `k` is not a key. */
  function Lookup(d: Dict, k: string): (r: Option<Table>)
    ensures r.None? <==> k !in KeysOf(d)
    ensures r.Some? ==> exists i :: 0 <= i < |d| && d[i] == (k, r.value)
  {
    if d == [] then None
    else if d[0].0 == k then
      assert d[0] == (k, d[0].1) && KeysOf(d)[0] == k;
      Some(d[0].1)
    else
      assert forall i :: 0 <= i < |d| - 1 ==> d[1..][i] == d[i + 1];
      assert k in KeysOf(d) <==> k in KeysOf(d[1..]) by {
        assert KeysOf(d) == [d[0].0] + KeysOf(d[1..]);
      }
      Lookup(d[1..], k)
  }

  /** Writing the same value under the same key twice is writing it once. */
  lemma PutTwice(d: Dict, k: string, v: Table)
    ensures Put(Put(d, k, v), k, v) == Put(d, k, v)
  {
  }

  /** Every entry of `sub` holds the value `d` holds under the same key. */
  predicate Agrees(sub: Dict, d: Dict) {
    forall i, j :: 0 <= i < |sub| && 0 <= j < |d| && sub[i].0 == d[j].0 ==> sub[i].1 == d[j].1
  }

  /** Every row of a table stands under the suite name it is filed under. */
  predicate Tagged(d: Dict) {
    forall i, row :: 0 <= i < |d| && row in d[i].1.rows ==> row.benchmark == d[i].0
  }

  // ---------------------------------------------------------------------------
  // Preparing one suite's table (lines 330-342)
  // ---------------------------------------------------------------------------

  /** `df["benchmark"] = benchmark_name`. */
  function Tag(t: Table, name: string): Table {
    Table(AddColumn(t.columns, BenchmarkColumn),
          seq(|t.rows|, i requires 0 <= i < |t.rows| => t.rows[i].(benchmark := name)),
          t.text + {BenchmarkColumn})
  }

  /** The types after `df[to] = df[from]`: `to` holds what `from` holds. */
  function CopyType(text: set<string>, from: string, to: string): set<string> {
    if from in text then text + {to} else text - {to}
  }

  function CopyRow(r: Row, src: string): Row {
    r.(runtimes := r.runtimes[RuntimeColumn(CommonTool) := RuntimeOf(r, RuntimeColumn(src))],
       results := r.results[ResultColumn(CommonTool) := ResultOf(r, ResultColumn(src))])
  }

  /** The two common-column assignments from tool `src`: looking up a column
      that is not there is a `KeyError`, the runtime column first. */
  function CopyCommon(t: Table, src: string): (r: Result<Table>)
    ensures r.Err? <==> RuntimeColumn(src) !in t.columns || ResultColumn(src) !in t.columns
    ensures r.Err? ==> r.error == KeyError(if RuntimeColumn(src) !in t.columns then RuntimeColumn(src) else ResultColumn(src))
  {
    if RuntimeColumn(src) !in t.columns then Err(KeyError(RuntimeColumn(src)))
    else if ResultColumn(src) !in t.columns then Err(KeyError(ResultColumn(src)))
    else
      Ok(Table(AddColumn(AddColumn(t.columns, RuntimeColumn(CommonTool)), ResultColumn(CommonTool)),
               seq(|t.rows|, i requires 0 <= i < |t.rows| => CopyRow(t.rows[i], src)),
               CopyType(CopyType(t.text, RuntimeColumn(src), RuntimeColumn(CommonTool)),
                        ResultColumn(src), ResultColumn(CommonTool))))
  }

  /** The common columns are added once each, after the others, and hold,
      row by row, the figures of tool `src` and their type; nothing else
      changes. */
  lemma CopyCommonCopies(t: Table, src: string)
    requires CopyCommon(t, src).Ok?
    ensures var c := CopyCommon(t, src).value;
      && (Distinct(t.columns) ==> Distinct(c.columns))
      && |t.columns| <= |c.columns| && c.columns[..|t.columns|] == t.columns
      && RuntimeColumn(CommonTool) in c.columns && ResultColumn(CommonTool) in c.columns
      && (forall col :: col in c.columns ==>
            col in t.columns || col == RuntimeColumn(CommonTool) || col == ResultColumn(CommonTool))
      && (RuntimeColumn(CommonTool) in c.text <==> RuntimeColumn(src) in t.text)
      && (ResultColumn(CommonTool) in c.text <==> ResultColumn(src) in t.text)
      && (forall col :: col != RuntimeColumn(CommonTool) && col != ResultColumn(CommonTool) ==>
            (col in c.text <==> col in t.text))
      && |c.rows| == |t.rows|
      && forall i :: 0 <= i < |t.rows| ==>
        && c.rows[i].name == t.rows[i].name
        && c.rows[i].benchmark == t.rows[i].benchmark
        && RuntimeOf(c.rows[i], RuntimeColumn(CommonTool)) == RuntimeOf(t.rows[i], RuntimeColumn(src))
        && ResultOf(c.rows[i], ResultColumn(CommonTool)) == ResultOf(t.rows[i], ResultColumn(src))
        && (forall col :: col != RuntimeColumn(CommonTool) ==> RuntimeOf(c.rows[i], col) == RuntimeOf(t.rows[i], col))
        && (forall col :: col != ResultColumn(CommonTool) ==> ResultOf(c.rows[i], col) == ResultOf(t.rows[i], col))
  {
    ResultIsNotRuntime(src, CommonTool);
    ResultIsNotRuntime(CommonTool, CommonTool);
  }

  /** Copying the common columns a second time from the same tool changes
      nothing, which is why the leetcode table, copied twice, is the same in
      both dictionaries it is filed into. */
  lemma CopyCommonIdempotent(t: Table, src: string)
    requires CopyCommon(t, src).Ok?
    ensures CopyCommon(CopyCommon(t, src).value, src) == CopyCommon(t, src)
  {
    var once := CopyCommon(t, src).value;
    CopyCommonCopies(t, src);
    var twice := CopyCommon(once, src).value;
    assert AddColumn(AddColumn(once.columns, RuntimeColumn(CommonTool)), ResultColumn(CommonTool)) == once.columns;
    forall i | 0 <= i < |t.rows|
      ensures twice.rows[i] == once.rows[i]
    {
      assert RuntimeOf(once.rows[i], RuntimeColumn(src)) == RuntimeOf(once.rows[i], RuntimeColumn(CommonTool));
      assert ResultOf(once.rows[i], ResultColumn(src)) == ResultOf(once.rows[i], ResultColumn(CommonTool));
      assert twice.rows[i].runtimes == once.rows[i].runtimes;
      assert twice.rows[i].results == once.rows[i].results;
    }
    assert twice.rows == once.rows;
    ResultIsNotRuntime(CommonTool, src);
    ResultIsNotRuntime(src, CommonTool);
    var mid := CopyType(once.text, RuntimeColumn(src), RuntimeColumn(CommonTool));
    assert RuntimeColumn(src) in once.text <==> RuntimeColumn(CommonTool) in once.text;
    assert mid == once.text;
    assert ResultColumn(src) in mid <==> ResultColumn(CommonTool) in mid;
    assert twice.text == once.text;
  }

  /** The tool the common columns of a suite are copied from. */
  function CommonSource(name: string, noodler: string, underapprox: string): string {
    if name == Kaluza then underapprox else noodler
  }

  /** A suite's table as it is filed: tagged, then given the common columns. */
  function Prepare(name: string, t: Table, noodler: string, underapprox: string): Result<Table> {
    CopyCommon(Tag(t, name), CommonSource(name, noodler, underapprox))
  }

  /** A prepared table has the rows of the table read, in order and under
      their own names, every one tagged with the suite, with the common
      columns holding the figures of the suite's source tool. */
  lemma PrepareShape(name: string, t: Table, noodler: string, underapprox: string)
    requires Prepare(name, t, noodler, underapprox).Ok?
    ensures var p := Prepare(name, t, noodler, underapprox).value;
      var src := CommonSource(name, noodler, underapprox);
      && BenchmarkColumn in p.columns && BenchmarkColumn in p.text
      && (Distinct(t.columns) ==> Distinct(p.columns))
      && |t.columns| <= |p.columns| && p.columns[..|t.columns|] == t.columns
      && (forall col :: col in p.columns ==>
            || col in t.columns || col == BenchmarkColumn
            || col == RuntimeColumn(CommonTool) || col == ResultColumn(CommonTool))
      && (ResultColumn(CommonTool) in p.text <==> ResultColumn(src) in t.text)
      && |p.rows| == |t.rows|
      && forall i :: 0 <= i < |t.rows| ==>
        && p.rows[i].name == t.rows[i].name
        && p.rows[i].benchmark == name
        && RuntimeOf(p.rows[i], RuntimeColumn(CommonTool)) == RuntimeOf(t.rows[i], RuntimeColumn(src))
        && ResultOf(p.rows[i], ResultColumn(CommonTool)) == ResultOf(t.rows[i], ResultColumn(src))
        && (forall col :: col != RuntimeColumn(CommonTool) ==> RuntimeOf(p.rows[i], col) == RuntimeOf(t.rows[i], col))
        && (forall col :: col != ResultColumn(CommonTool) ==> ResultOf(p.rows[i], col) == ResultOf(t.rows[i], col))
  {
    var tagged := Tag(t, name);
    var src := CommonSource(name, noodler, underapprox);
    CopyCommonCopies(tagged, src);
    assert tagged.columns[..|t.columns|] == t.columns;
    assert ResultColumn(src)[|ResultColumn(src)| - 1] == 't';
    assert forall i :: 0 <= i < |t.rows| ==>
      RuntimeOf(tagged.rows[i], RuntimeColumn(src)) == RuntimeOf(t.rows[i], RuntimeColumn(src))
      && ResultOf(tagged.rows[i], ResultColumn(src)) == ResultOf(t.rows[i], ResultColumn(src));
  }

  // ---------------------------------------------------------------------------
  // Filing the suites (lines 326-343)
  // ---------------------------------------------------------------------------

  /** The suites `dfs_normal` receives: every one but kaluza. */
  function NormalSuite(name: string): bool { name != Kaluza }

  /** The suites `dfs_underapprox` receives: leetcode and kaluza. */
  function UnderSuite(name: string): bool { name == Leetcode || name == Kaluza }

  datatype Dicts = Dicts(all: Dict, normal: Dict, under: Dict)

  /** Filing one prepared suite table `p` under `name` (lines 333-343). */
  function FileOne(d: Dicts, name: string, p: Table): Dicts {
    Dicts(Put(d.all, name, p),
          if NormalSuite(name) then Put(d.normal, name, p) else d.normal,
          if UnderSuite(name) then Put(d.under, name, p) else d.under)
  }

  /** `Prepare` for the given noodler versions, as a function of a file. */
  function Preparer(noodler: string, underapprox: string): (string, Table) -> Result<Table> {
    (name: string, t: Table) => Prepare(name, t, noodler, underapprox)
  }

  /** Every file's table prepared, in order under its suite name, or the
      first error. */
  function PrepareAll(files: seq<(string, Table)>, noodler: string, underapprox: string): Result<Dict> {
    PrepareEach(files, Preparer(noodler, underapprox))
  }

  function PrepareEach(files: seq<(string, Table)>, prepare: (string, Table) -> Result<Table>): Result<Dict> {
    if files == [] then Ok([])
    else
      match PrepareEach(files[..|files| - 1], prepare)
      case Err(e) => Err(e)
      case Ok(ps) =>
        match prepare(files[|files| - 1].0, files[|files| - 1].1)
        case Err(e) => Err(e)
        case Ok(p) => Ok(ps + [(files[|files| - 1].0, p)])
  }

  /** The three dictionaries after the prepared tables have been filed. */
  function FileAll(ps: Dict): Dicts {
    if ps == [] then Dicts([], [], [])
    else FileOne(FileAll(ps[..|ps| - 1]), ps[|ps| - 1].0, ps[|ps| - 1].1)
  }

  /** The three dictionaries after the files in `files` (suite name and table
      read, in order) have been filed, or the first error. Filing raises
      nothing, so preparing every table first finds the same first error. */
  function Route(files: seq<(string, Table)>, noodler: string, underapprox: string): Result<Dicts> {
    match PrepareAll(files, noodler, underapprox)
    case Err(e) => Err(e)
    case Ok(ps) => Ok(FileAll(ps))
  }

  /** Each prepared entry is the suite name of the file at the same place
      with its prepared table. */
  lemma PrepareAllShape(files: seq<(string, Table)>, noodler: string, underapprox: string)
    requires PrepareAll(files, noodler, underapprox).Ok?
    ensures var ps := PrepareAll(files, noodler, underapprox).value;
      && |ps| == |files|
      && forall i :: 0 <= i < |files| ==>
           ps[i].0 == files[i].0 && Prepare(files[i].0, files[i].1, noodler, underapprox) == Ok(ps[i].1)
  {
    PrepareEachShape(files, Preparer(noodler, underapprox));
  }

  lemma {:induction false} PrepareEachShape(files: seq<(string, Table)>, prepare: (string, Table) -> Result<Table>)
    requires PrepareEach(files, prepare).Ok?
    ensures var ps := PrepareEach(files, prepare).value;
      && |ps| == |files|
      && forall i :: 0 <= i < |files| ==> ps[i].0 == files[i].0 && prepare(files[i].0, files[i].1) == Ok(ps[i].1)
  {
    if files != [] {
      var init := files[..|files| - 1];
      PrepareEachShape(init, prepare);
      var ps0 := PrepareEach(init, prepare).value;
      var ps := PrepareEach(files, prepare).value;
      assert ps[..|init|] == ps0;
      forall i | 0 <= i < |init|
        ensures ps[i].0 == files[i].0 && prepare(files[i].0, files[i].1) == Ok(ps[i].1)
      {
        assert init[i] == files[i] && ps[i] == ps0[i];
      }
    }
  }

  /** Every prepared table's rows are tagged with its suite name. */
  lemma PrepareAllTagged(files: seq<(string, Table)>, noodler: string, underapprox: string)
    requires PrepareAll(files, noodler, underapprox).Ok?
    ensures Tagged(PrepareAll(files, noodler, underapprox).value)
  {
    var ps := PrepareAll(files, noodler, underapprox).value;
    PrepareAllShape(files, noodler, underapprox);
    forall i, row | 0 <= i < |ps| && row in ps[i].1.rows
      ensures row.benchmark == ps[i].0
    {
      PreparedTagged(files[i].0, files[i].1, noodler, underapprox);
    }
  }

  /** The first error stops the preparing: once a prefix of the files fails,
      the whole list fails with the same error. */
  lemma {:induction false} PrepareErrorPersists(files: seq<(string, Table)>, i: nat, prepare: (string, Table) -> Result<Table>)
    requires i <= |files| && PrepareEach(files[..i], prepare).Err?
    ensures PrepareEach(files, prepare) == PrepareEach(files[..i], prepare)
    decreases |files| - i
  {
    if i < |files| {
      assert files[..i + 1][..i] == files[..i];
      PrepareErrorPersists(files, i + 1, prepare);
    } else {
      assert files[..i] == files;
    }
  }

  /** The distinct elements of `s` in the order they first appear. */
  function Unique(s: seq<string>): (u: seq<string>)
    ensures forall x :: x in u <==> x in s
  {
    if s == [] then []
    else
      var init := Unique(s[..|s| - 1]);
      assert forall x :: x in s <==> x in s[..|s| - 1] || x == s[|s| - 1] by {
        assert s == s[..|s| - 1] + [s[|s| - 1]];
      }
      if s[|s| - 1] in init then init else init + [s[|s| - 1]]
  }

  /** The filed dictionaries are well formed. `dfs` has no key twice;
      `dfs_normal` and `dfs_underapprox` hold exactly its normal and
      under-approximation suites, in the same order and with the same tables;
      every table's rows are tagged with the suite they are filed under. */
  ghost predicate Filed(d: Dicts) {
    && DistinctKeys(d.all) && DistinctKeys(d.normal) && DistinctKeys(d.under)
    && KeysOf(d.normal) == Filter(KeysOf(d.all), NormalSuite)
    && KeysOf(d.under) == Filter(KeysOf(d.all), UnderSuite)
    && Agrees(d.normal, d.all) && Agrees(d.under, d.all)
    && Tagged(d.all)
  }

  /** Filing tagged tables keeps the dictionaries well formed, whatever the
      suites' names. */
  lemma {:induction false} FileAllFiled(ps: Dict)
    requires Tagged(ps)
    ensures Filed(FileAll(ps))
  {
    if ps != [] {
      var init := ps[..|ps| - 1];
      assert Tagged(init) by {
        assert forall i :: 0 <= i < |init| ==> init[i] == ps[i];
      }
      FileAllFiled(init);
      FiledStep(FileAll(init), ps[|ps| - 1].0, ps[|ps| - 1].1);
    }
  }

  /** `dfs` has one entry per suite name, in the order the names first appear. */
  lemma {:induction false} FileAllKeys(ps: Dict)
    ensures KeysOf(FileAll(ps).all) == Unique(KeysOf(ps))
  {
    if ps != [] {
      var init := ps[..|ps| - 1];
      FileAllKeys(init);
      var names := KeysOf(ps);
      assert names[..|names| - 1] == KeysOf(init);
      UniqueSnoc(names);
    }
  }

  lemma UniqueSnoc(s: seq<string>)
    requires s != []
    ensures Unique(s) == if s[|s| - 1] in Unique(s[..|s| - 1]) then Unique(s[..|s| - 1])
                         else Unique(s[..|s| - 1]) + [s[|s| - 1]]
  {
  }

  /** When every suite name occurs once, `dfs` is the prepared tables
      themselves, in the order of the files. */
  lemma {:induction false} FileAllDistinct(ps: Dict)
    requires DistinctKeys(ps)
    ensures FileAll(ps).all == ps
  {
    if ps != [] {
      var init := ps[..|ps| - 1];
      var last := ps[|ps| - 1];
      assert DistinctKeys(init);
      FileAllDistinct(init);
      assert last.0 !in KeysOf(init) by {
        assert forall i :: 0 <= i < |init| ==> KeysOf(init)[i] == ps[i].0 != last.0;
      }
      PutNew(init, last.0, last.1);
      assert init + [last] == ps;
    }
  }

  /** Writing a key that is not there appends the entry. */
  lemma PutNew(d: Dict, k: string, v: Table)
    requires k !in KeysOf(d)
    ensures Put(d, k, v) == d + [(k, v)]
  {
  }

  /** Filing the prepared files keeps the dictionaries well formed. */
  lemma RouteFiled(files: seq<(string, Table)>, noodler: string, underapprox: string)
    requires Route(files, noodler, underapprox).Ok?
    ensures Filed(Route(files, noodler, underapprox).value)
  {
    PrepareAllTagged(files, noodler, underapprox);
    FileAllFiled(PrepareAll(files, noodler, underapprox).value);
  }

  /** When every suite name occurs once, `dfs` holds the suites in the order
      of the files, each with its prepared table. */
  lemma RouteDistinctNames(files: seq<(string, Table)>, noodler: string, underapprox: string)
    requires Route(files, noodler, underapprox).Ok?
    requires forall i, j :: 0 <= i < j < |files| ==> files[i].0 != files[j].0
    ensures var all := Route(files, noodler, underapprox).value.all;
      && |all| == |files|
      && forall i :: 0 <= i < |files| ==>
           all[i].0 == files[i].0 && Prepare(files[i].0, files[i].1, noodler, underapprox) == Ok(all[i].1)
  {
    var ps := PrepareAll(files, noodler, underapprox).value;
    PrepareAllShape(files, noodler, underapprox);
    FileAllDistinct(ps);
  }

  /** `dfs` has one entry per suite name, in the order the names first appear. */
  lemma RouteKeys(files: seq<(string, Table)>, noodler: string, underapprox: string)
    requires Route(files, noodler, underapprox).Ok?
    ensures KeysOf(Route(files, noodler, underapprox).value.all) == Unique(KeysOf(files))
  {
    var ps := PrepareAll(files, noodler, underapprox).value;
    PrepareEachKeys(files, Preparer(noodler, underapprox));
    FileAllKeys(ps);
  }

  /** Preparing keeps every file's suite name in its place. */
  lemma PrepareEachKeys(files: seq<(string, Table)>, prepare: (string, Table) -> Result<Table>)
    requires PrepareEach(files, prepare).Ok?
    ensures KeysOf(PrepareEach(files, prepare).value) == KeysOf(files)
  {
    PrepareEachShape(files, prepare);
  }

  lemma PreparedTagged(name: string, t: Table, noodler: string, underapprox: string)
    requires Prepare(name, t, noodler, underapprox).Ok?
    ensures forall row :: row in Prepare(name, t, noodler, underapprox).value.rows ==> row.benchmark == name
  {
    PrepareShape(name, t, noodler, underapprox);
  }

  /** Filing one more table keeps the dictionaries well formed. */
  lemma FiledStep(d: Dicts, name: string, p: Table)
    requires Filed(d)
    requires forall row :: row in p.rows ==> row.benchmark == name
    ensures Filed(FileOne(d, name, p))
  {
    SubStep(d.all, d.normal, name, p, NormalSuite);
    SubStep(d.all, d.under, name, p, UnderSuite);
    TaggedStep(d.all, name, p);
  }

  /** A sub-dictionary that holds exactly the entries of `all` whose keys
      satisfy `q` still does after the same write to both. */
  lemma SubStep(all: Dict, sub: Dict, name: string, p: Table, q: string -> bool)
    requires DistinctKeys(all) && DistinctKeys(sub) && Agrees(sub, all)
    requires KeysOf(sub) == Filter(KeysOf(all), q)
    ensures var sub' := if q(name) then Put(sub, name, p) else sub;
      DistinctKeys(sub') && Agrees(sub', Put(all, name, p))
      && KeysOf(sub') == Filter(KeysOf(Put(all, name, p)), q)
  {
    FilterAppend(KeysOf(all), [name], q);
    FilterMembers(KeysOf(all), q);
    assert Filter([name], q) == if q(name) then [name] else [];
    if name in KeysOf(all) {
      if q(name) {
        var k :| 0 <= k < |KeysOf(all)| && KeysOf(all)[k] == name;
        assert name in KeysOf(sub);
      }
    } else {
      assert name !in KeysOf(sub);
    }
    if !q(name) {
      assert name !in KeysOf(sub);
    }
    PutAgrees(sub, all, name, p, q(name));
  }

  lemma TaggedStep(all: Dict, name: string, p: Table)
    requires Tagged(all)
    requires forall row :: row in p.rows ==> row.benchmark == name
    ensures Tagged(Put(all, name, p))
  {
    var all' := Put(all, name, p);
    forall i, row | 0 <= i < |all'| && row in all'[i].1.rows
      ensures row.benchmark == all'[i].0
    {
      if i < |all| && all[i].0 != name {
        assert all'[i] == all[i];
      }
    }
  }

  /** Writing the same entry into a dictionary and, optionally, into one that
      agrees with it keeps them agreeing. */
  lemma PutAgrees(sub: Dict, d: Dict, k: string, v: Table, both: bool)
    requires Agrees(sub, d)
    requires both || k !in KeysOf(sub)
    ensures Agrees(if both then Put(sub, k, v) else sub, Put(d, k, v))
  {
    var sub' := if both then Put(sub, k, v) else sub;
    var d' := Put(d, k, v);
    forall i, j | 0 <= i < |sub'| && 0 <= j < |d'| && sub'[i].0 == d'[j].0
      ensures sub'[i].1 == d'[j].1
    {
      if !both {
        assert KeysOf(sub)[i] == sub[i].0;
      }
      if sub'[i].0 != k {
        assert i < |sub| && j < |d|;
      } else {
        assert i < |sub| ==> sub'[i].1 == v;
        assert j < |d| ==> d'[j].1 == v;
      }
    }
  }

  // ---------------------------------------------------------------------------
  // Concatenation (`pd.concat` of a dictionary of frames)
  // ---------------------------------------------------------------------------

  /** The columns of `cols` followed by those of `more` not yet among them. */
  function AddAll(cols: seq<string>, more: seq<string>): (r: seq<string>)
    ensures forall c :: c in r <==> c in cols || c in more
    ensures Distinct(cols) ==> Distinct(r)
    ensures |cols| <= |r| && r[..|cols|] == cols
    decreases |more|
  {
    if more == [] then cols
    else
      var next := AddColumn(cols, more[0]);
      assert forall c :: c in more <==> c == more[0] || c in more[1..];
      assert next[..|cols|] == cols;
      AddAll(next, more[1..])
  }

  /** Every column of the tables, each once, in the order of first appearance. */
  function UnionColumns(ts: seq<Table>): seq<string> {
    if ts == [] then [] else AddAll(ts[0].columns, UnionColumns(ts[1..]))
  }

  /** The rows of the tables one after the other. */
  function ConcatRows(ts: seq<Table>): seq<Row> {
    if ts == [] then [] else ts[0].rows + ConcatRows(ts[1..])
  }

  /** The columns that hold strings in at least one of the tables. */
  function UnionText(ts: seq<Table>): set<string> {
    if ts == [] then {} else ts[0].text + UnionText(ts[1..])
  }

  function HasRows(t: Table): bool { t.rows != [] }

  /** The types of `pd.concat`: a table without rows is left out when the
      type of a column is decided, unless no table has rows. */
  function ConcatTypes(ts: seq<Table>): set<string> {
    var filled := Filter(ts, HasRows);
    if filled == [] then UnionText(ts) else UnionText(filled)
  }

  /** `pd.concat(d)`; a cell of a column a table lacks reads as NaN. */
  function Concat(ts: seq<Table>): Table {
    Table(UnionColumns(ts), ConcatRows(ts), ConcatTypes(ts))
  }

  lemma {:induction false} UnionTextMembers(ts: seq<Table>)
    ensures forall c :: c in UnionText(ts) <==> exists i :: 0 <= i < |ts| && c in ts[i].text
  {
    if ts != [] {
      UnionTextMembers(ts[1..]);
      assert forall i :: 0 < i < |ts| ==> ts[i] == ts[1..][i - 1];
      forall c | c in UnionText(ts)
        ensures exists i :: 0 <= i < |ts| && c in ts[i].text
      {
        if c !in ts[0].text {
          assert c in UnionText(ts[1..]);
          var i :| 0 <= i < |ts[1..]| && c in ts[1..][i].text;
          assert c in ts[i + 1].text;
        }
      }
    }
  }

  /** A column of the concatenation holds strings exactly when it holds
      strings in one of the tables that have rows; when no table has rows,
      exactly when it holds strings in one of the tables. */
  lemma ConcatText(ts: seq<Table>)
    ensures (exists i :: 0 <= i < |ts| && ts[i].rows != []) ==>
      forall c :: c in Concat(ts).text <==> exists i :: 0 <= i < |ts| && ts[i].rows != [] && c in ts[i].text
    ensures (forall i :: 0 <= i < |ts| ==> ts[i].rows == []) ==>
      forall c :: c in Concat(ts).text <==> exists i :: 0 <= i < |ts| && c in ts[i].text
  {
    var filled := Filter(ts, HasRows);
    FilterMembers(ts, HasRows);
    UnionTextMembers(ts);
    UnionTextMembers(filled);
    if exists i :: 0 <= i < |ts| && ts[i].rows != [] {
      var i :| 0 <= i < |ts| && ts[i].rows != [];
      assert ts[i] in filled;
      forall c
        ensures c in Concat(ts).text <==> exists i :: 0 <= i < |ts| && ts[i].rows != [] && c in ts[i].text
      {
        if c in Concat(ts).text {
          var j :| 0 <= j < |filled| && c in filled[j].text;
          assert filled[j] in filled;
          var k :| 0 <= k < |ts| && ts[k] == filled[j];
        } else {
          forall k | 0 <= k < |ts| && ts[k].rows != []
            ensures c !in ts[k].text
          {
            assert ts[k] in filled;
            var j :| 0 <= j < |filled| && filled[j] == ts[k];
          }
        }
      }
    } else {
      FilterNone(ts, HasRows);
    }
  }

  /** Every column any of the tables has. */
  function AllColumns(ts: seq<Table>): set<string> {
    if ts == [] then {} else (set c | c in ts[0].columns) + AllColumns(ts[1..])
  }

  /** The concatenation has a column exactly when one of the tables has it,
      and no column twice when no table has one twice. */
  lemma {:induction false} ConcatColumns(ts: seq<Table>)
    ensures forall c :: c in Concat(ts).columns <==> c in AllColumns(ts)
    ensures forall i, c :: 0 <= i < |ts| && c in ts[i].columns ==> c in Concat(ts).columns
    ensures (forall i :: 0 <= i < |ts| ==> Distinct(ts[i].columns)) ==> Distinct(Concat(ts).columns)
  {
    if ts != [] {
      ConcatColumns(ts[1..]);
      assert forall i :: 0 < i < |ts| ==> ts[i] == ts[1..][i - 1];
    }
  }

  /** The concatenation has as many rows as the tables together. */
  lemma {:induction false} ConcatRowCount(ts: seq<Table>)
    ensures |Concat(ts).rows| == RowTotal(ts)
  {
    if ts != [] {
      ConcatRowCount(ts[1..]);
    }
  }

  function RowTotal(ts: seq<Table>): nat {
    if ts == [] then 0 else |ts[0].rows| + RowTotal(ts[1..])
  }

  /** Concatenating after appending one table appends its rows. */
  lemma {:induction false} ConcatSnoc(ts: seq<Table>, t: Table)
    ensures ConcatRows(ts + [t]) == ConcatRows(ts) + t.rows
  {
    if ts == [] {
      assert ts + [t] == [t];
    } else {
      assert (ts + [t])[1..] == ts[1..] + [t];
      ConcatSnoc(ts[1..], t);
    }
  }

  function BenchmarkIs(name: string): Row -> bool {
    (r: Row) => r.benchmark == name
  }

  /** The rows of the concatenation that carry a suite's name are that
      suite's rows, in their order, and there are none for a name that is
      not a key: the suite name tells the concatenated suites apart. */
  lemma {:induction false} ConcatBySuite(d: Dict, name: string)
    requires DistinctKeys(d) && Tagged(d)
    ensures Filter(ConcatRows(Values(d)), BenchmarkIs(name))
         == match Lookup(d, name) case Some(t) => t.rows case None => []
  {
    if d != [] {
      var rest := d[1..];
      var first := d[0].1.rows;
      assert Values(d) == [d[0].1] + Values(rest);
      assert ConcatRows(Values(d)) == first + ConcatRows(Values(rest));
      assert DistinctKeys(rest) && Tagged(rest) by {
        assert forall i :: 0 <= i < |rest| ==> rest[i] == d[i + 1];
      }
      ConcatBySuite(rest, name);
      FilterAppend(first, ConcatRows(Values(rest)), BenchmarkIs(name));
      if d[0].0 == name {
        assert forall row :: row in first ==> row.benchmark == name;
        FilterAll(first, BenchmarkIs(name));
        assert name !in KeysOf(rest) by {
          assert forall i :: 0 <= i < |rest| ==> KeysOf(rest)[i] == d[i + 1].0 != d[0].0;
        }
        assert Lookup(d, name) == Some(d[0].1);
        assert first + [] == first;
      } else {
        assert forall row :: row in first ==> row.benchmark != name;
        FilterNone(first, BenchmarkIs(name));
        assert Lookup(d, name) == Lookup(rest, name);
        assert [] + Filter(ConcatRows(Values(rest)), BenchmarkIs(name)) == Filter(ConcatRows(Values(rest)), BenchmarkIs(name));
      }
    }
  }

  // ---------------------------------------------------------------------------
  // The sanity check (lines 126-131)
  // ---------------------------------------------------------------------------

  /** Both z3 and cvc5 have an answer, as has the noodler, and one of them
      disagrees with the noodler. */
  function Disagrees(noodler: string): Row -> bool {
    (r: Row) =>
      var z3 := ResultOf(r, ResultColumn("z3"));
      var cvc5 := ResultOf(r, ResultColumn("cvc5"));
      var mine := ResultOf(r, noodler);
      z3.Some? && cvc5.Some? && mine.Some? && (cvc5 != mine || z3 != mine)
  }

  /** The columns `sanity_check` selects, in order (line 128). */
  const SanityColumns: seq<string> := ["name", ResultColumn("z3"), ResultColumn("cvc5"), ResultColumn(Plots.NOODLER)]

  function Absent(cols: seq<string>): string -> bool {
    (c: string) => c !in cols
  }

  /** The columns of `wanted` that `cols` lacks, in the order of `wanted`:
      what the `KeyError` of `df[wanted]` names. */
  function MissingColumns(cols: seq<string>, wanted: seq<string>): (r: seq<string>)
    ensures forall c :: c in r <==> c in wanted && c !in cols
    ensures r == [] <==> forall c :: c in wanted ==> c in cols
  {
    FilterMembers(wanted, Absent(cols));
    var r := Filter(wanted, Absent(cols));
    assert r != [] ==> r[0] in r;
    r
  }

  /** `sanity_check(df)`: the rows where the noodler named by `NOODLER`
      disagrees with z3 or with cvc5, both having answered. Selecting columns
      that are not there is a `KeyError` naming all of them. */
  function SanityCheck(t: Table): (r: Result<seq<Row>>)
    ensures r.Err? <==> "name" !in t.columns || ResultColumn("z3") !in t.columns
                        || ResultColumn("cvc5") !in t.columns || ResultColumn(Plots.NOODLER) !in t.columns
    ensures r.Err? ==> r.error.KeysError? && forall c :: c in r.error.keys <==> c in SanityColumns && c !in t.columns
    ensures r.Ok? ==> forall k :: 0 <= k < |r.value| ==>
      r.value[k] in t.rows
      && ResultOf(r.value[k], ResultColumn("z3")).Some? && ResultOf(r.value[k], ResultColumn("cvc5")).Some?
      && ResultOf(r.value[k], ResultColumn(Plots.NOODLER)).Some?
      && (ResultOf(r.value[k], ResultColumn("z3")) != ResultOf(r.value[k], ResultColumn(Plots.NOODLER))
          || ResultOf(r.value[k], ResultColumn("cvc5")) != ResultOf(r.value[k], ResultColumn(Plots.NOODLER)))
  {
    var missing := MissingColumns(t.columns, SanityColumns);
    if missing != [] then Err(KeysError(missing))
    else
      FilterMembers(t.rows, Disagrees(ResultColumn(Plots.NOODLER)));
      Ok(Filter(t.rows, Disagrees(ResultColumn(Plots.NOODLER))))
  }

  /** The check misses no disagreement, and reports nothing when all three
      tools agree wherever they all answered. */
  lemma SanityCheckComplete(t: Table)
    requires SanityCheck(t).Ok?
    ensures forall k :: 0 <= k < |t.rows| && Disagrees(ResultColumn(Plots.NOODLER))(t.rows[k]) ==>
      t.rows[k] in SanityCheck(t).value
    ensures (forall k :: 0 <= k < |t.rows| ==> !Disagrees(ResultColumn(Plots.NOODLER))(t.rows[k]))
      ==> SanityCheck(t).value == []
  {
    FilterMembers(t.rows, Disagrees(ResultColumn(Plots.NOODLER)));
    if forall k :: 0 <= k < |t.rows| ==> !Disagrees(ResultColumn(Plots.NOODLER))(t.rows[k]) {
      FilterNone(t.rows, Disagrees(ResultColumn(Plots.NOODLER)));
    }
  }

  // ---------------------------------------------------------------------------
  // create_dfs (lines 325-353)
  // ---------------------------------------------------------------------------

  /** What `create_dfs` returns: `dfs`, `df_all`, `df_normal` and
      `df_underapprox`. */
  datatype Suites = Suites(dfs: Dict, all: Table, normal: Table, under: Table)

  /** The first error `create_dfs` raises after reading the files: copying
      the common columns; concatenating no normal suite at all (`ValueError`);
      the sanity check of the normal suites; no kaluza suite (`KeyError`). */
  function CreateError(files: seq<(string, Table)>, noodler: string, underapprox: string): Option<Error> {
    match Route(files, noodler, underapprox)
    case Err(e) => Some(e)
    case Ok(d) =>
      if d.normal == [] then Some(ValueError)
      else if SanityCheck(Concat(Values(d.normal))).Err? then Some(SanityCheck(Concat(Values(d.normal))).error)
      else if Kaluza !in KeysOf(d.all) then Some(KeyError(Kaluza))
      else None
  }

  /** `create_dfs(files, noodler_version, noodler_underapprox_version)`, with
      every file already read into its suite name and table. */
  method CreateDfs(files: seq<(string, Table)>, noodler: string, underapprox: string) returns (r: Result<Suites>)
    ensures r.Err? <==> CreateError(files, noodler, underapprox).Some?
    ensures r.Err? ==> r.error == CreateError(files, noodler, underapprox).value
    ensures r.Ok? ==> Route(files, noodler, underapprox).Ok?
    ensures r.Ok? ==>
      var d := Route(files, noodler, underapprox).value;
      && Lookup(d.all, Kaluza).Some?
      && r.value.dfs == d.all
      && r.value.normal == Concat(Values(d.normal))
      && r.value.all == Concat(Values(d.normal) + [Lookup(d.all, Kaluza).value])
      && r.value.under == Concat(Values(d.under))
  {
    var dicts := Dicts([], [], []);
    ghost var ps: Dict := [];
    for i := 0 to |files|
      invariant PrepareAll(files[..i], noodler, underapprox) == Ok(ps)
      invariant dicts == FileAll(ps)
    {
      assert files[..i + 1][..i] == files[..i];
      var filed := FileSuite(dicts, files[i].0, files[i].1, noodler, underapprox);
      if filed.Err? {
        PrepareErrorPersists(files, i + 1, Preparer(noodler, underapprox));
        return Err(filed.error);
      }
      ghost var before := ps;
      ps := ps + [(files[i].0, Prepare(files[i].0, files[i].1, noodler, underapprox).value)];
      assert ps[..|ps| - 1] == before;
      dicts := filed.value;
    }
    assert files[..|files|] == files;
    r := Concatenate(files, noodler, underapprox, dicts);
  }

  /** One turn of the loop over the files (lines 330-343): the table is
      tagged, given its common columns and written into the dictionaries. */
  method FileSuite(d: Dicts, name: string, t: Table, noodler: string, underapprox: string) returns (r: Result<Dicts>)
    ensures r == match Prepare(name, t, noodler, underapprox)
                 case Err(e) => Err(e)
                 case Ok(p) => Ok(FileOne(d, name, p))
  {
    var all, normal, under := d.all, d.normal, d.under;
    var df := Tag(t, name);
    if name == Leetcode {
      var copied := CopyCommon(df, noodler);
      if copied.Err? {
        return Err(copied.error);
      }
      df := copied.value;
      under := Put(under, name, df);
      normal := Put(normal, name, df);
    }
    if name == Kaluza {
      var copied := CopyCommon(df, underapprox);
      if copied.Err? {
        return Err(copied.error);
      }
      df := copied.value;
      under := Put(under, name, df);
    } else {
      if name == Leetcode {
        CopyCommonIdempotent(Tag(t, name), noodler);
        PutTwice(d.normal, name, df);
      }
      var copied := CopyCommon(df, noodler);
      if copied.Err? {
        return Err(copied.error);
      }
      df := copied.value;
      normal := Put(normal, name, df);
    }
    all := Put(all, name, df);
    r := Ok(Dicts(all, normal, under));
  }

  /** Lines 344-353, once every file has been filed. */
  method Concatenate(files: seq<(string, Table)>, noodler: string, underapprox: string, d: Dicts)
    returns (r: Result<Suites>)
    requires Route(files, noodler, underapprox) == Ok(d)
    ensures r.Err? <==> CreateError(files, noodler, underapprox).Some?
    ensures r.Err? ==> r.error == CreateError(files, noodler, underapprox).value
    ensures r.Ok? ==>
      && Lookup(d.all, Kaluza).Some?
      && r.value.dfs == d.all
      && r.value.normal == Concat(Values(d.normal))
      && r.value.all == Concat(Values(d.normal) + [Lookup(d.all, Kaluza).value])
      && r.value.under == Concat(Values(d.under))
  {
    if d.normal == [] {
      return Err(ValueError);
    }
    var dfNormal := Concat(Values(d.normal));
    var check := SanityCheck(dfNormal);
    if check.Err? {
      return Err(check.error);
    }
    var kaluza := Lookup(d.all, Kaluza);
    if kaluza.None? {
      return Err(KeyError(Kaluza));
    }
    KaluzaNotNormal(files, noodler, underapprox);
    var withKaluza := Put(d.normal, Kaluza, kaluza.value);
    PutNewValues(d.normal, Kaluza, kaluza.value);
    r := Ok(Suites(d.all, Concat(Values(withKaluza)), dfNormal, Concat(Values(d.under))));
  }

  /** Kaluza is never a normal suite, so `dfs_normal["kaluza"] = ...` adds it last. */
  lemma KaluzaNotNormal(files: seq<(string, Table)>, noodler: string, underapprox: string)
    requires Route(files, noodler, underapprox).Ok?
    ensures Kaluza !in KeysOf(Route(files, noodler, underapprox).value.normal)
  {
    RouteFiled(files, noodler, underapprox);
    FilterMembers(KeysOf(Route(files, noodler, underapprox).value.all), NormalSuite);
    assert !NormalSuite(Kaluza);
  }

  lemma PutNewValues(d: Dict, k: string, v: Table)
    requires k !in KeysOf(d)
    ensures Values(Put(d, k, v)) == Values(d) + [v]
  {
  }

  /** A sub-dictionary that agrees with a tagged dictionary on its keys is
      tagged too. */
  lemma AgreesTagged(sub: Dict, d: Dict)
    requires Agrees(sub, d) && Tagged(d)
    requires forall k :: k in KeysOf(sub) ==> k in KeysOf(d)
    ensures Tagged(sub)
  {
    forall a, row | 0 <= a < |sub| && row in sub[a].1.rows
      ensures row.benchmark == sub[a].0
    {
      assert KeysOf(sub)[a] == sub[a].0;
      assert sub[a].0 in KeysOf(d);
      var j :| 0 <= j < |KeysOf(d)| && KeysOf(d)[j] == sub[a].0;
      assert d[j].0 == sub[a].0;
    }
  }

  /** `df_all` is `df_normal` followed by kaluza's rows, and the rows of
      `df_all` that carry a suite's name are exactly that suite's rows. */
  lemma AllIsNormalThenKaluza(files: seq<(string, Table)>, noodler: string, underapprox: string, name: string)
    requires Route(files, noodler, underapprox).Ok?
    requires Kaluza in KeysOf(Route(files, noodler, underapprox).value.all)
    ensures var d := Route(files, noodler, underapprox).value;
      var kaluza := Lookup(d.all, Kaluza).value;
      var all := Concat(Values(d.normal) + [kaluza]);
      && all.rows == Concat(Values(d.normal)).rows + kaluza.rows
      && (forall row :: row in kaluza.rows ==> row.benchmark == Kaluza)
      && (name != Kaluza ==> Filter(all.rows, BenchmarkIs(name))
                              == match Lookup(d.normal, name) case Some(t) => t.rows case None => [])
  {
    RouteFiled(files, noodler, underapprox);
    FiledNormalThenKaluza(Route(files, noodler, underapprox).value, name);
  }

  lemma FiledNormalThenKaluza(d: Dicts, name: string)
    requires Filed(d) && Kaluza in KeysOf(d.all)
    ensures var kaluza := Lookup(d.all, Kaluza).value;
      var all := Concat(Values(d.normal) + [kaluza]);
      && all.rows == Concat(Values(d.normal)).rows + kaluza.rows
      && (forall row :: row in kaluza.rows ==> row.benchmark == Kaluza)
      && (name != Kaluza ==> Filter(all.rows, BenchmarkIs(name))
                              == match Lookup(d.normal, name) case Some(t) => t.rows case None => [])
  {
    var kaluza := Lookup(d.all, Kaluza).value;
    ConcatSnoc(Values(d.normal), kaluza);
    var i :| 0 <= i < |d.all| && d.all[i] == (Kaluza, kaluza);
    if name != Kaluza {
      NormalTagged(d);
      ConcatBySuite(d.normal, name);
      FilterAppend(ConcatRows(Values(d.normal)), kaluza.rows, BenchmarkIs(name));
      FilterNone(kaluza.rows, BenchmarkIs(name));
    }
  }

  /** The normal suites' tables are tagged like those of `dfs`. */
  lemma NormalTagged(d: Dicts)
    requires Filed(d)
    ensures Tagged(d.normal)
  {
    FilterMembers(KeysOf(d.all), NormalSuite);
    AgreesTagged(d.normal, d.all);
  }
}
