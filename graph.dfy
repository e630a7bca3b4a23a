/** The ASCII graphs (`plotMemoryGraph` and `plotCPUGraph` in
    UtilMonitor.c). Both draw the same grid: 11 rows for row = 10 down to
    0, each with a label and one cell per value, then an axis line and a
    decile ruler. They differ in title, scale and glyph; the `%5.2f` and
    `%5.1f%%` renderings of a row label are kept as the threshold value. */
module Graph {
  import opened CText

  /** `height` in both plot functions. */
  const Height: nat := 10

  /** A row's label: its threshold (printed with `%5.2f | ` or `%5.1f%% | `),
      or the blank label `       | `. Only the value is kept, not the text
      or its width. */
  datatype Label = Threshold(value: real) | Blank

  /** One grid line: its label (caption) and the cells after ` | `. */
  datatype Row = Row(caption: Label, cells: string)

  /** Everything a plot function prints, top to bottom. */
  datatype Graph = Graph(title: string, rows: seq<Row>, axis: string, ruler: string)

  const MemoryTitle: string := "Memory Utilization Graph (GB):"
  const CpuTitle: string := "CPU Utilization Graph (%):"
  const MemoryGlyph: char := '#'
  const CpuGlyph: char := ':'

  /** `(top * row) / height`: the value a cell of `row` must reach. */
  function ThresholdAt(top: real, row: int): real {
    (top * row as real) / Height as real
  }

  /** Rows that carry a numeric label: the top, the middle and the bottom. */
  predicate Labelled(row: int) {
    row == Height || row == Height / 2 || row == 0
  }

  function RowLabel(top: real, row: int): Label {
    if Labelled(row) then Threshold(ThresholdAt(top, row)) else Blank
  }

  function Cell(v: real, threshold: real, glyph: char): char {
    if v >= threshold then glyph else ' '
  }

  function Cells(values: seq<real>, threshold: real, glyph: char): (cells: string)
    ensures |cells| == |values|
  {
    seq(|values|, i requires 0 <= i < |values| => Cell(values[i], threshold, glyph))
  }

  function RowAt(values: seq<real>, top: real, glyph: char, row: int): Row {
    Row(RowLabel(top, row), Cells(values, ThresholdAt(top, row), glyph))
  }

  /** The first `k` rows printed: row 10, then 9, and so on. */
  function RowsFrom(values: seq<real>, top: real, glyph: char, k: nat): (rows: seq<Row>)
    requires k <= Height + 1
    ensures |rows| == k
    ensures forall j :: 0 <= j < k ==> rows[j] == RowAt(values, top, glyph, Height - j)
  {
    seq(k, j => RowAt(values, top, glyph, Height - j))
  }

  function Dashes(n: nat): (s: string)
    ensures |s| == n
  {
    seq(n, _ => '-')
  }

  /** The line under the grid: seven blanks, `+`, one dash per value. */
  function Axis(count: nat): string {
    "       +" + Dashes(count)
  }

  /** Ruler position i: `%d` of i/10 on a multiple of ten, a blank otherwise. */
  function RulerMark(i: nat): string {
    if i % 10 == 0 then Decimal(i / 10) else " "
  }

  function RulerMarks(n: nat): string {
    if n == 0 then [] else RulerMarks(n - 1) + RulerMark(n - 1)
  }

  /** The ruler line: eight blanks, then the marks. */
  function Ruler(count: nat): string {
    "        " + RulerMarks(count)
  }

  /** The graph of `values` against `top`, the value of the top row. */
  function Render(title: string, values: seq<real>, top: real, glyph: char): Graph {
    Graph(title, RowsFrom(values, top, glyph, Height + 1), Axis(|values|), Ruler(|values|))
  }

  /** `plotMemoryGraph(values, count, total_mem)` on `values[..count]`. */
  function MemoryGraph(values: seq<real>, totalMem: real): Graph {
    Render(MemoryTitle, values, totalMem, MemoryGlyph)
  }

  /** `plotCPUGraph(values, count)` on `values[..count]`. */
  function CpuGraph(values: seq<real>): Graph {
    Render(CpuTitle, values, 100.0, CpuGlyph)
  }

  /** The body both plot functions share: the row loop with its cell
      loop, then the axis loop and the ruler loop. */
  method PlotGraph(title: string, values: array<real>, count: int, top: real, glyph: char) returns (g: Graph)
    requires 0 <= count <= values.Length
    ensures g == Render(title, values[..count], top, glyph)
  {
    var rows := PlotRows(values, count, top, glyph);
    var axis := PlotAxis(count);
    var ruler := PlotRuler(count);
    g := Graph(title, rows, axis, ruler);
  }

  /** The row loop, `for (row = height; row >= 0; row--)`. */
  method PlotRows(values: array<real>, count: int, top: real, glyph: char) returns (rows: seq<Row>)
    requires 0 <= count <= values.Length
    ensures rows == RowsFrom(values[..count], top, glyph, Height + 1)
  {
    rows := [];
    var row: int := Height;
    while row >= 0
      invariant -1 <= row <= Height
      invariant rows == RowsFrom(values[..count], top, glyph, Height - row)
    {
      var threshold := (top * row as real) / Height as real;
      var caption := if row == Height || row == Height / 2 || row == 0 then Threshold(threshold) else Blank;
      var cells := PlotRow(values, count, threshold, glyph);
      assert threshold == ThresholdAt(top, row);
      assert caption == RowLabel(top, row);
      assert cells == Cells(values[..count], ThresholdAt(top, row), glyph);
      assert Row(caption, cells) == RowAt(values[..count], top, glyph, row);
      rows := rows + [Row(caption, cells)];
      row := row - 1;
    }
  }

  /** The axis loop: one `-` per value after `       +`. */
  method PlotAxis(count: int) returns (axis: string)
    requires 0 <= count
    ensures axis == Axis(count)
  {
    axis := "       +";
    var i := 0;
    while i < count
      invariant 0 <= i <= count
      invariant axis == "       +" + Dashes(i)
    {
      axis := axis + "-";
      i := i + 1;
    }
  }

  /** The ruler loop: `%d` of i/10 where i % 10 == 0, a blank elsewhere. */
  method PlotRuler(count: int) returns (ruler: string)
    requires 0 <= count
    ensures ruler == Ruler(count)
  {
    ruler := "        ";
    var i := 0;
    while i < count
      invariant 0 <= i <= count
      invariant ruler == "        " + RulerMarks(i)
    {
      if i % 10 == 0 {
        ruler := ruler + Decimal(i / 10);
      } else {
        ruler := ruler + " ";
      }
      i := i + 1;
    }
  }

  /** The cell loop of one row. */
  method PlotRow(values: array<real>, count: int, threshold: real, glyph: char) returns (cells: string)
    requires 0 <= count <= values.Length
    ensures cells == Cells(values[..count], threshold, glyph)
  {
    cells := "";
    var i := 0;
    while i < count
      invariant 0 <= i <= count && |cells| == i
      invariant forall j :: 0 <= j < i ==> cells[j] == Cell(values[j], threshold, glyph)
    {
      if values[i] >= threshold {
        cells := cells + [glyph];
      } else {
        cells := cells + " ";
      }
      i := i + 1;
    }
  }

  method PlotMemoryGraph(values: array<real>, count: int, totalMem: real) returns (g: Graph)
    requires 0 <= count <= values.Length
    ensures g == MemoryGraph(values[..count], totalMem)
  {
    g := PlotGraph(MemoryTitle, values, count, totalMem, MemoryGlyph);
  }

  method PlotCpuGraph(values: array<real>, count: int) returns (g: Graph)
    requires 0 <= count <= values.Length
    ensures g == CpuGraph(values[..count])
  {
    g := PlotGraph(CpuTitle, values, count, 100.0, CpuGlyph);
  }

  // ---------------------------------------------------------------------
  // Properties of the picture

  /** 11 rows, row 10 first; only rows 10, 5 and 0 carry a number, which
      is their threshold; every row has one cell per value. */
  lemma GridShape(title: string, values: seq<real>, top: real, glyph: char, k: nat)
    requires k <= Height
    ensures var g := Render(title, values, top, glyph);
      && |g.rows| == 11
      && |g.rows[k].cells| == |values|
      && (g.rows[k].caption.Threshold? <==> k == 0 || k == 5 || k == 10)
      && (g.rows[k].caption.Threshold? ==> g.rows[k].caption.value == top * (10 - k) as real / 10.0)
  {
  }

  /** Cell (row, i) shows the glyph exactly when `values[i]` reaches the
      row's threshold, and is blank otherwise. */
  lemma CellRule(title: string, values: seq<real>, top: real, glyph: char, row: nat, i: nat)
    requires row <= Height && i < |values| && glyph != ' '
    ensures var cell := Render(title, values, top, glyph).rows[Height - row].cells[i];
      && (cell == glyph <==> values[i] >= ThresholdAt(top, row))
      && (cell != glyph ==> cell == ' ')
  {
  }

  /** The bottom row's threshold is 0, so it is filled at every
      non-negative value; the top row is filled where a value reaches `top`. */
  lemma BottomAndTopRows(title: string, values: seq<real>, top: real, glyph: char, i: nat)
    requires i < |values|
    ensures var g := Render(title, values, top, glyph);
      && (values[i] >= 0.0 ==> g.rows[Height].cells[i] == glyph)
      && (values[i] >= top ==> g.rows[0].cells[i] == glyph)
  {
    assert ThresholdAt(top, 0) == 0.0;
    assert ThresholdAt(top, Height) == top;
  }

  /** With a non-negative scale, thresholds grow with the row, so a column
      fills from the bottom: a filled cell has every cell below it filled. */
  lemma ColumnsFillFromBottom(title: string, values: seq<real>, top: real, glyph: char,
                              low: nat, high: nat, i: nat)
    requires top >= 0.0 && low <= high <= Height && i < |values| && glyph != ' '
    requires Render(title, values, top, glyph).rows[Height - high].cells[i] == glyph
    ensures Render(title, values, top, glyph).rows[Height - low].cells[i] == glyph
  {
    assert ThresholdAt(top, low) <= ThresholdAt(top, high) by {
      var d := high as real - low as real;
      assert top * d >= 0.0;
      assert top * high as real == top * low as real + top * d;
    }
  }

  /** The axis is eight characters and then exactly `count` dashes. */
  lemma AxisDashes(count: nat)
    ensures |Axis(count)| == 8 + count
    ensures Axis(count)[8..] == Dashes(count)
    ensures Occurrences(Axis(count), '-') == count
  {
    OccurrencesAppend("       +", Dashes(count), '-');
    assert Occurrences("       +", '-') == 0 by {
      OccurrencesAbsent("       +", '-');
    }
    AllDashes(count);
  }

  lemma {:induction false} AllDashes(n: nat)
    ensures Occurrences(Dashes(n), '-') == n
  {
    if n > 0 {
      assert Dashes(n)[..n - 1] == Dashes(n - 1);
      AllDashes(n - 1);
    }
  }

  /** Up to 100 values the ruler has one mark per column: the decile digit
      at multiples of ten, a blank elsewhere. */
  lemma {:induction false} RulerAligned(count: nat)
    requires count <= 100
    ensures |RulerMarks(count)| == count
    ensures forall i :: 0 <= i < count ==>
      RulerMarks(count)[i] == if i % 10 == 0 then DigitChar(i / 10) else ' '
  {
    if count > 0 {
      RulerAligned(count - 1);
      var i := count - 1;
      assert RulerMark(i) == [if i % 10 == 0 then DigitChar(i / 10) else ' '];
    }
  }

  /** The ruler is never shorter than the axis. */
  lemma {:induction false} RulerAtLeastCount(count: nat)
    ensures |RulerMarks(count)| >= count
  {
    if count > 0 {
      RulerAtLeastCount(count - 1);
    }
  }

  /** From 101 values on, the mark `10` at position 100 takes two columns,
      so the ruler runs past the axis and later marks sit to the right of
      their columns. */
  lemma {:induction false} RulerOverrunsPast100(count: nat)
    requires count > 100
    ensures |RulerMarks(count)| > count
  {
    if count == 101 {
      RulerAtLeastCount(100);
      assert RulerMark(100) == Decimal(10);
    } else {
      RulerOverrunsPast100(count - 1);
    }
  }
}
