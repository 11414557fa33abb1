/** The data-side parts of plotting: laying a list of plots out as a grid
    (`matrix_plot`), the parameters of each comparison scatter plot with their
    defaults (lines 231-262 of `gen_evaluation`), and the axis name derived
    from the Noodler version string. Rendering itself is not modelled. */
module Plots {
  import opened Common
  import opened Frames

  // ---------------------------------------------------------------------------
  // matrix_plot (lines 100-118)
  // ---------------------------------------------------------------------------

  /** `items` cut into consecutive rows of `cols` items; the last row holds
      what is left. */
  function Chunks<T>(items: seq<T>, cols: nat): seq<seq<T>>
    requires cols > 0
    decreases |items|
  {
    if |items| <= cols then (if items == [] then [] else [items])
    else [items[..cols]] + Chunks(items[cols..], cols)
  }

  /** The rows of a grid read one after another. */
  function Flatten<T>(rows: seq<seq<T>>): seq<T> {
    if rows == [] then [] else rows[0] + Flatten(rows[1..])
  }

  /** Reading the grid row by row gives back the items in their order. */
  lemma {:induction false} ChunksFlatten<T>(items: seq<T>, cols: nat)
    requires cols > 0
    ensures Flatten(Chunks(items, cols)) == items
  {
    if |items| > cols {
      ChunksFlatten(items[cols..], cols);
      assert items == items[..cols] + items[cols..];
    } else if items != [] {
      assert Flatten([items]) == items + Flatten([]);
    }
  }

  /** Every row but the last is full, the last holds between one and `cols`
      items, and there are ceil(n / cols) rows. */
  lemma ChunksShape<T>(items: seq<T>, cols: nat)
    requires cols > 0
    ensures var rows := Chunks(items, cols);
      && (rows == [] <==> items == [])
      && (forall j :: 0 <= j < |rows| - 1 ==> |rows[j]| == cols)
      && (rows != [] ==> 0 < |rows[|rows| - 1]| <= cols)
      && (rows != [] ==> |rows[|rows| - 1]| == |items| - (|rows| - 1) * cols)
      && |rows| == (|items| + cols - 1) / cols
  {
    var rows := Chunks(items, cols);
    ChunksLayout(items, cols);
    if items == [] {
      DivModUnique(cols - 1, cols, 0, cols - 1);
    } else {
      var m := |rows|;
      var last := |rows[m - 1]|;
      MulSucc(m - 1, cols);
      DivModUnique(|items| + cols - 1, cols, m, last - 1);
    }
  }

  lemma {:induction false} ChunksLayout<T>(items: seq<T>, cols: nat)
    requires cols > 0
    ensures var rows := Chunks(items, cols);
      && (rows == [] <==> items == [])
      && (forall j :: 0 <= j < |rows| - 1 ==> |rows[j]| == cols)
      && (rows != [] ==> 0 < |rows[|rows| - 1]| <= cols)
      && (rows != [] ==> |rows[|rows| - 1]| == |items| - (|rows| - 1) * cols)
    decreases |items|
  {
    var rows := Chunks(items, cols);
    if |items| > cols {
      var rest := Chunks(items[cols..], cols);
      ChunksLayout(items[cols..], cols);
      assert rows == [items[..cols]] + rest;
      var m := |rows|;
      MulSucc(m - 2, cols);
      assert rows[m - 1] == rest[m - 2];
    } else if items != [] {
      assert |rows| == 1;
    }
  }

  lemma MulSucc(a: int, c: int)
    ensures (a + 1) * c == a * c + c
  {
  }

  /** Quotient and remainder are determined by the equation that defines them. */
  lemma DivModUnique(a: int, c: int, q: int, r: int)
    requires c > 0 && a == q * c + r && 0 <= r < c
    ensures a / c == q && a % c == r
  {
    var q0, r0 := a / c, a % c;
    assert a == q0 * c + r0;
    if q0 < q {
      assert (q - q0) * c == r0 - r;
      MulAtLeast(q - q0, c);
    } else if q0 > q {
      assert (q0 - q) * c == r - r0;
      MulAtLeast(q0 - q, c);
    }
  }

  lemma MulAtLeast(x: int, c: int)
    requires x >= 1 && c > 0
    ensures x * c >= c
  {
    assert x * c == (x - 1) * c + c;
  }

  /** On a multiple of `c`, adding less than `c` leaves that much as remainder. */
  lemma ModShift(a: int, k: int, c: int)
    requires c > 0 && a % c == 0 && 0 <= k < c
    ensures (a + k) % c == k && (a + c) % c == 0
  {
    var q := a / c;
    assert a == q * c;
    DivModUnique(a + k, c, q, k);
    assert a + c == (q + 1) * c;
    DivModUnique(a + c, c, q + 1, 0);
  }

  /** Adding a row to a grid whose rows are all full. */
  lemma {:induction false} ChunksSnoc<T>(full: seq<T>, last: seq<T>, cols: nat)
    requires cols > 0 && |full| % cols == 0 && 0 < |last| <= cols
    ensures Chunks(full + last, cols) == Chunks(full, cols) + [last]
    decreases |full|
  {
    if full == [] {
      assert full + last == last;
    } else {
      assert |full| >= cols by {
        if |full| < cols {
          DivModUnique(|full|, cols, 0, |full|);
        }
      }
      var all := full + last;
      assert all[..cols] == full[..cols];
      assert all[cols..] == full[cols..] + last;
      var q := |full| / cols;
      assert |full| == q * cols;
      assert |full| - cols == (q - 1) * cols;
      DivModUnique(|full| - cols, cols, q - 1, 0);
      ChunksSnoc(full[cols..], last, cols);
      if |full| == cols {
        assert full[cols..] + last == last;
        assert full[..cols] == full;
      }
    }
  }

  /** Where item `i` sits in a row that starts at the multiple `start` of
      `cols`: first in the row exactly at `start`, last exactly at the end
      of a full row. */
  lemma RowPosition(start: int, i: int, cols: int)
    requires cols > 0 && start % cols == 0 && 0 <= i - start < cols
    ensures i % cols == 0 <==> i == start
    ensures (i + 1) % cols == 0 <==> i + 1 - start == cols
  {
    ModShift(start, i - start, cols);
    if i + 1 - start < cols {
      ModShift(start, i + 1 - start, cols);
    }
  }

  /** `matrix_plot(list_of_plots, cols)`: the plots laid out left to right,
      `cols` to a row (`|` joins beside, `&` stacks below). The asserts reject
      an empty list and a negative width; a width of 0 passes them and then
      divides by zero. */
  method MatrixPlot<T>(plots: seq<T>, cols: int) returns (r: Result<seq<seq<T>>>)
    ensures |plots| == 0 || cols < 0 ==> r == Err(AssertionError)
    ensures |plots| > 0 && cols == 0 ==> r == Err(ZeroDivisionError)
    ensures |plots| > 0 && cols > 0 ==> r == Ok(Chunks(plots, cols))
  {
    if |plots| == 0 || cols < 0 {
      return Err(AssertionError);
    }
    if cols == 0 {
      return Err(ZeroDivisionError);
    }
    var matrix: Option<seq<seq<T>>> := None;
    var row: seq<T> := [];
    ghost var done: nat := 0;
    for i := 0 to |plots|
      invariant done <= i
      invariant done % cols == 0 || done == |plots|
      invariant i - done < cols
      invariant done < i ==> row == plots[done..i]
      invariant matrix == if done == 0 then None else Some(Chunks(plots[..done], cols))
      invariant i == |plots| ==> done == |plots|
    {
      RowPosition(done, i, cols);
      if i % cols == 0 {  // starting a new row
        row := [plots[i]];
      } else {
        row := row + [plots[i]];
      }
      assert row == plots[done..i + 1];
      if (i + 1) % cols == 0 || i + 1 == |plots| {  // last chart in a row
        ChunksSnoc(plots[..done], row, cols);
        assert plots[..done] + row == plots[..i + 1];
        if matrix.None? {
          matrix := Some([row]);
        } else {
          matrix := Some(matrix.value + [row]);
        }
        done := i + 1;
      }
    }
    assert plots[..done] == plots;
    r := Ok(matrix.value);
  }

  // ---------------------------------------------------------------------------
  // Axis name and default file name
  // ---------------------------------------------------------------------------

  /** The Noodler version whose name labels the x axis. */
  const NOODLER: string := "z3-noodler-69838f6"

  /** `s[:s.rfind("-")]`: everything before the last dash. Without a dash
      `rfind` gives -1, and the slice then drops the last character. */
  function BeforeLastDash(s: string): string {
    PrefixSlice(s, RFind(s, '-'))
  }

  lemma BeforeLastDashCases(s: string)
    ensures var b := BeforeLastDash(s);
      && ('-' in s ==> |b| < |s| && s[..|b|] == b && s[|b|] == '-' && '-' !in s[|b| + 1..])
      && ('-' !in s && s != [] ==> b == s[..|s| - 1])
      && (s == [] ==> b == [])
  {
    var k := RFind(s, '-');
    if '-' in s {
      var rest := s[k + 1..];
      forall x | x in rest
        ensures x != '-'
      {
        var i :| 0 <= i < |rest| && rest[i] == x;
        assert s[k + 1 + i] == x;
      }
    }
  }

  /** The x-axis name of every comparison plot is "z3-noodler". */
  lemma NoodlerAxisName()
    ensures BeforeLastDash(NOODLER) == "z3-noodler"
  {
    BeforeLastDashCases(NOODLER);
    assert NOODLER[10] == '-';
    var b := BeforeLastDash(NOODLER);
    assert forall j :: 10 < j < |NOODLER| ==> NOODLER[j] != '-';
    assert |b| == 10;
  }

  /** `if benchmark_name:` — neither None nor the empty string. */
  predicate Truthy(name: Option<string>) {
    name.Some? && name.value != ""
  }

  /** The default plot file name (lines 258-262). */
  function DefaultFilename(benchmark: Option<string>, x: string, y: string): string {
    "graphs/fig_" + (if Truthy(benchmark) then benchmark.value + "_" else "") + x + "_vs_" + y + ".pdf"
  }

  /** The name starts with the directory and prefix, names the benchmark only
      when one is given, and ends with the pair compared. */
  lemma DefaultFilenameShape(benchmark: Option<string>, x: string, y: string)
    ensures var f := DefaultFilename(benchmark, x, y);
      && StartsWith(f, "graphs/fig_")
      && EndsWith(f, x + "_vs_" + y + ".pdf")
      && (Truthy(benchmark) ==> StartsWith(f, "graphs/fig_" + benchmark.value + "_"))
      && (!Truthy(benchmark) ==> f == "graphs/fig_" + x + "_vs_" + y + ".pdf")
  {
    var pre := "graphs/fig_";
    var b := if Truthy(benchmark) then benchmark.value + "_" else "";
    var tail := x + "_vs_" + y + ".pdf";
    assert DefaultFilename(benchmark, x, y) == (pre + b) + tail == pre + (b + tail);
    StartsWithAppend(pre, b + tail);
    EndsWithAppend(pre + b, tail);
    StartsWithAppend(pre + b, tail);
  }

  /** For one benchmark and one x tool, distinct y tools get distinct default
      file names, so no comparison plot overwrites another. */
  lemma DefaultFilenameInjective(benchmark: Option<string>, x: string, y1: string, y2: string)
    requires DefaultFilename(benchmark, x, y1) == DefaultFilename(benchmark, x, y2)
    ensures y1 == y2
  {
    var p := "graphs/fig_" + (if Truthy(benchmark) then benchmark.value + "_" else "") + x + "_vs_";
    var f1 := DefaultFilename(benchmark, x, y1);
    var f2 := DefaultFilename(benchmark, x, y2);
    assert f1 == p + y1 + ".pdf";
    assert f2 == p + y2 + ".pdf";
    assert |y1| == |y2|;
    assert f1[|p|..|p| + |y1|] == y1;
    assert f2[|p|..|p| + |y2|] == y2;
  }

  // ---------------------------------------------------------------------------
  // Comparison plot parameters (lines 231-262)
  // ---------------------------------------------------------------------------

  /** A value of a parameter dictionary; `Null` is Python's None. */
  datatype Param = Text(text: string) | Number(number: real) | Whole(whole: int) | Null

  /** The keys of a parameter dictionary: "x", "y", "xname", "yname", "max",
      "tickCount" and "filename". The dictionaries are built by the
      evaluation itself and hold no other key. */
  datatype ParamKey = X | Y | XName | YName | Max | TickCount | FileName

  type PlotParams = map<ParamKey, Param>

  /** The dictionary built for the comparison of `main` with `tool`
      (lines 235-237). */
  function ComparisonParams(main: string, tool: string, lim: Limits): PlotParams {
    map[X := Text(main), Y := Text(tool),
        XName := Text(BeforeLastDash(NOODLER)), YName := Text(tool),
        Max := Number(lim.timeoutVal), TickCount := Whole(3)]
  }

  /** The keys every parameter dictionary has once defaults are filled in. */
  const ParamKeys: set<ParamKey> := {XName, YName, Max, TickCount, FileName}

  /** Lines 249-262: a default goes in only where a key is missing; the
      file-name default reads `x` and `y`, which must then be strings. */
  function FillDefaults(p: PlotParams, benchmark: Option<string>, lim: Limits): (r: PlotParams)
    requires FileName in p || (X in p && p[X].Text? && Y in p && p[Y].Text?)
    ensures r.Keys == p.Keys + ParamKeys
    ensures forall k :: k in p ==> r[k] == p[k]
    ensures XName !in p ==> r[XName] == Null
    ensures YName !in p ==> r[YName] == Null
    ensures Max !in p ==> r[Max] == Number(lim.timeoutVal)
    ensures TickCount !in p ==> r[TickCount] == Whole(5)
    ensures FileName !in p ==> r[FileName] == Text(DefaultFilename(benchmark, p[X].text, p[Y].text))
  {
    var p1 := if XName in p then p else p[XName := Null];
    var p2 := if YName in p1 then p1 else p1[YName := Null];
    var p3 := if Max in p2 then p2 else p2[Max := Number(lim.timeoutVal)];
    var p4 := if TickCount in p3 then p3 else p3[TickCount := Whole(5)];
    if FileName in p4 then p4
    else p4[FileName := Text(DefaultFilename(benchmark, p[X].text, p[Y].text))]
  }

  /** The finished parameters of the comparison of `main` with `tool`. */
  function FinishedParams(main: string, tool: string, benchmark: Option<string>, lim: Limits): (p: PlotParams)
    ensures X in p && p[X] == Text(main)
    ensures Y in p && p[Y] == Text(tool)
    ensures XName in p && p[XName] == Text(BeforeLastDash(NOODLER))
    ensures YName in p && p[YName] == Text(tool)
    ensures Max in p && p[Max] == Number(lim.timeoutVal)
    ensures TickCount in p && p[TickCount] == Whole(3)
    ensures FileName in p && p[FileName] == Text(DefaultFilename(benchmark, main, tool))
  {
    FillDefaults(ComparisonParams(main, tool, lim), benchmark, lim)
  }

  /** The finished parameters of every comparison plot, one per tool other
      than `main`, in `all_tools` order. */
  method PlotParamsList(main: string, allTools: seq<string>, benchmark: Option<string>, lim: Limits)
    returns (list: seq<PlotParams>)
    ensures |list| == |Others(allTools, main)|
    ensures forall k :: 0 <= k < |list| ==>
      list[k] == FinishedParams(main, Others(allTools, main)[k], benchmark, lim)
  {
    var toCompare := ComparisonList(main, allTools, lim);
    list := FillAll(toCompare, main, Others(allTools, main), benchmark, lim);
  }

  /** Lines 231-237: the parameter dictionary of each comparison, in order. */
  method ComparisonList(main: string, allTools: seq<string>, lim: Limits) returns (toCompare: seq<PlotParams>)
    ensures |toCompare| == |Others(allTools, main)|
    ensures forall k :: 0 <= k < |toCompare| ==>
      toCompare[k] == ComparisonParams(main, Others(allTools, main)[k], lim)
  {
    toCompare := [];
    for i := 0 to |allTools|
      invariant |toCompare| == |Others(allTools[..i], main)|
      invariant forall k :: 0 <= k < |toCompare| ==>
        toCompare[k] == ComparisonParams(main, Others(allTools[..i], main)[k], lim)
    {
      OthersSnoc(allTools, i, main);
      if allTools[i] != main {
        toCompare := toCompare + [ComparisonParams(main, allTools[i], lim)];
      }
    }
    assert allTools[..|allTools|] == allTools;
  }

  /** Lines 249-262, applied to every dictionary of the list in turn. */
  method FillAll(toCompare: seq<PlotParams>, main: string, others: seq<string>, benchmark: Option<string>, lim: Limits)
    returns (list: seq<PlotParams>)
    requires |toCompare| == |others|
    requires forall k :: 0 <= k < |toCompare| ==> toCompare[k] == ComparisonParams(main, others[k], lim)
    ensures |list| == |others|
    ensures forall k :: 0 <= k < |list| ==> list[k] == FinishedParams(main, others[k], benchmark, lim)
  {
    list := toCompare;
    for i := 0 to |list|
      invariant |list| == |others|
      invariant forall k :: 0 <= k < i ==> list[k] == FinishedParams(main, others[k], benchmark, lim)
      invariant forall k :: i <= k < |list| ==> list[k] == toCompare[k]
    {
      list := list[i := FillDefaults(list[i], benchmark, lim)];
    }
  }
}
