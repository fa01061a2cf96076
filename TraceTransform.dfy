/**
 * The per-file row transform: which rows of a trace are written, and the
 * line each of them becomes. `n` is the configured column count (a C# `int`,
 * so possibly negative) and `delta` the per-column multipliers.
 */
module TraceTransform {
  import opened Rounding
  import opened CsvLine
  import opened Wrappers

  type Row = seq<int>

  /** The number of columns a non-negative or negative count stands for. */
  function Width(n: int): nat {
    if n < 0 then 0 else n
  }

  /** LINQ `Take(n)`: the first `n` elements, all of them when there are fewer, none when `n <= 0`. */
  function Take(delta: seq<real>, n: int): (t: seq<real>)
    ensures |t| == if Width(n) <= |delta| then Width(n) else |delta|
    ensures t == delta[..|t|]
  {
    if n <= 0 then [] else if n >= |delta| then delta else delta[..n]
  }

  /** Once the configuration gate has passed, `Take` yields exactly `Width(n)` multipliers. */
  lemma TakeAfterGate(delta: seq<real>, n: int)
    requires |delta| >= n
    ensures |Take(delta, n)| == Width(n)
  {
  }

  /**
   * The scaled leading columns of `row`. Every `row[i]` it reads is in range
   * because `row` has at least `n` entries and `Take` never yields more than `n`.
   */
  function AdjustRow(delta: seq<real>, n: int, row: Row): (adjusted: seq<int>)
    requires |row| >= n
    ensures |adjusted| == |Take(delta, n)|
    ensures |delta| >= n ==> |adjusted| == Width(n)
    ensures |adjusted| <= |delta| && |adjusted| <= Width(n)
    ensures forall i :: 0 <= i < |adjusted| ==> adjusted[i] == ScaleCell(delta[i], row[i])
  {
    var ds := Take(delta, n);
    seq(|ds|, i requires 0 <= i < |ds| => ScaleCell(ds[i], row[i]))
  }

  /** Index of the first row with fewer than `n` entries, or `|rows|` when there is none. */
  function FirstShort(n: int, rows: seq<Row>): (k: nat)
    ensures k <= |rows|
    ensures forall j :: 0 <= j < k ==> |rows[j]| >= n
    ensures k < |rows| ==> |rows[k]| < n
  {
    if rows == [] then 0
    else if |rows[0]| < n then 0
    else 1 + FirstShort(n, rows[1..])
  }

  /**
   * The adjusted rows the row loop emits: one per row, in order, stopping
   * at the first row that is too short.
   */
  function ScaledRows(delta: seq<real>, n: int, rows: seq<Row>): seq<seq<int>> {
    if rows == [] then []
    else if |rows[0]| < n then []
    else [AdjustRow(delta, n, rows[0])] + ScaledRows(delta, n, rows[1..])
  }

  /** Each adjusted row as the text line `string.Join(',', ...)` makes of it. */
  function Render(cells: seq<seq<int>>): (lines: seq<string>)
    ensures |lines| == |cells|
  {
    seq(|cells|, k requires 0 <= k < |cells| => JoinInts(cells[k]))
  }

  /** The lines the output file holds once the row loop is over. */
  function OutputLines(delta: seq<real>, n: int, rows: seq<Row>): seq<string> {
    Render(ScaledRows(delta, n, rows))
  }

  /** One adjusted row per row up to the first short row. */
  lemma {:induction false} ScaledRowsLength(delta: seq<real>, n: int, rows: seq<Row>)
    ensures |ScaledRows(delta, n, rows)| == FirstShort(n, rows)
  {
    if rows != [] && |rows[0]| >= n {
      ScaledRowsLength(delta, n, rows[1..]);
    }
  }

  /** Order preservation: adjusted row `k` comes from row `k`. */
  lemma {:induction false} ScaledRowsAt(delta: seq<real>, n: int, rows: seq<Row>, k: nat)
    requires k < FirstShort(n, rows)
    ensures k < |ScaledRows(delta, n, rows)| && ScaledRows(delta, n, rows)[k] == AdjustRow(delta, n, rows[k])
  {
    ScaledRowsLength(delta, n, rows);
    if k > 0 {
      ScaledRowsAt(delta, n, rows[1..], k - 1);
    }
  }

  /** Rows that are all long enough, followed by more rows: the two outputs in order. */
  lemma {:induction false} ScaledRowsAppend(delta: seq<real>, n: int, a: seq<Row>, b: seq<Row>)
    requires forall j :: 0 <= j < |a| ==> |a[j]| >= n
    ensures ScaledRows(delta, n, a + b) == ScaledRows(delta, n, a) + ScaledRows(delta, n, b)
  {
    if a == [] {
      assert a + b == b;
    } else {
      assert (a + b)[1..] == a[1..] + b;
      ScaledRowsAppend(delta, n, a[1..], b);
    }
  }

  /** Rendering keeps one line per adjusted row, in order. */
  lemma RenderAppend(a: seq<seq<int>>, b: seq<seq<int>>)
    ensures Render(a + b) == Render(a) + Render(b)
  {
  }

  /** The output holds exactly one line per row before the first short row, and those lines are in row order. */
  lemma OutputLinesAt(delta: seq<real>, n: int, rows: seq<Row>, k: nat)
    ensures |OutputLines(delta, n, rows)| == FirstShort(n, rows)
    ensures k < FirstShort(n, rows) ==>
      OutputLines(delta, n, rows)[k] == JoinInts(AdjustRow(delta, n, rows[k]))
  {
    ScaledRowsLength(delta, n, rows);
    if k < FirstShort(n, rows) {
      ScaledRowsAt(delta, n, rows, k);
    }
  }

  /** Early abort: the lines written are those of the rows before the first short one. */
  lemma EarlyAbortPrefix(delta: seq<real>, n: int, rows: seq<Row>, k: nat)
    requires k <= |rows|
    requires k < |rows| ==> |rows[k]| < n
    requires forall j :: 0 <= j < k ==> |rows[j]| >= n
    ensures |OutputLines(delta, n, rows)| == k
    ensures OutputLines(delta, n, rows) == OutputLines(delta, n, rows[..k])
  {
    assert rows == rows[..k] + rows[k..];
    ScaledRowsAppend(delta, n, rows[..k], rows[k..]);
    assert ScaledRows(delta, n, rows[k..]) == [];
    ScaledRowsLength(delta, n, rows[..k]);
  }

  /** Every row is written exactly when no row is short. */
  lemma AllRowsWritten(delta: seq<real>, n: int, rows: seq<Row>)
    ensures |OutputLines(delta, n, rows)| == |rows| <==> forall j :: 0 <= j < |rows| ==> |rows[j]| >= n
  {
    ScaledRowsLength(delta, n, rows);
  }

  /** Extending a run of long rows by one more long row appends that row's line. */
  lemma OutputLinesSnoc(delta: seq<real>, n: int, rows: seq<Row>, i: nat)
    requires i < |rows|
    requires forall j :: 0 <= j <= i ==> |rows[j]| >= n
    ensures OutputLines(delta, n, rows[..i + 1]) == OutputLines(delta, n, rows[..i]) + [JoinInts(AdjustRow(delta, n, rows[i]))]
  {
    assert rows[..i + 1] == rows[..i] + [rows[i]];
    ScaledRowsAppend(delta, n, rows[..i], [rows[i]]);
    assert ScaledRows(delta, n, [rows[i]]) == [AdjustRow(delta, n, rows[i])];
    RenderAppend(ScaledRows(delta, n, rows[..i]), [AdjustRow(delta, n, rows[i])]);
  }

  /** The shape of a written line: it reads back as exactly `Width(n)` scaled cells. */
  lemma LineShape(delta: seq<real>, n: int, rows: seq<Row>, k: nat)
    requires |delta| >= n
    requires k < FirstShort(n, rows)
    ensures k < |OutputLines(delta, n, rows)|
    ensures exists cells: seq<int> ::
      ParseLine(OutputLines(delta, n, rows)[k]) == Some(cells)
      && |cells| == Width(n)
      && (forall i :: 0 <= i < |cells| ==> cells[i] == ScaleCell(delta[i], rows[k][i]))
  {
    OutputLinesAt(delta, n, rows, k);
    var cells := AdjustRow(delta, n, rows[k]);
    JoinIntsRoundTrip(cells);
  }

  /** Entries at index `n` and beyond never reach the output. */
  lemma TrailingColumnsIgnored(delta: seq<real>, n: int, row: Row, other: Row)
    requires |row| >= n && |other| >= n
    requires forall i :: 0 <= i < n ==> row[i] == other[i]
    ensures AdjustRow(delta, n, row) == AdjustRow(delta, n, other)
  {
  }

  /** With zero (or a negative number of) columns no row is short and every row becomes an empty line. */
  lemma ZeroColumns(delta: seq<real>, n: int, rows: seq<Row>)
    requires n <= 0
    ensures |OutputLines(delta, n, rows)| == |rows|
    ensures forall k :: 0 <= k < |rows| ==> OutputLines(delta, n, rows)[k] == ""
  {
    OutputLinesAt(delta, n, rows, 0);
    forall k | 0 <= k < |rows| ensures OutputLines(delta, n, rows)[k] == "" {
      OutputLinesAt(delta, n, rows, k);
    }
  }

  /** With every multiplier 1.0 a row keeps its first `n` entries unchanged. */
  lemma UnitDeltaKeepsColumns(delta: seq<real>, n: int, row: Row)
    requires |delta| >= n && |row| >= n
    requires forall i :: 0 <= i < |delta| ==> delta[i] == 1.0
    ensures AdjustRow(delta, n, row) == row[..Width(n)]
    ensures ParseLine(JoinInts(AdjustRow(delta, n, row))) == Some(row[..Width(n)])
  {
    var cells := AdjustRow(delta, n, row);
    forall i | 0 <= i < |cells| ensures cells[i] == row[i] {
      ScaleCellUnit(row[i]);
    }
    assert cells == row[..Width(n)];
    JoinIntsRoundTrip(cells);
  }

  /** Two columns scaled by 2.0 and 0.5: the row [10, 3] becomes "20,2", and so does [10, 5]. */
  lemma TwoColumnExample()
    ensures OutputLines([2.0, 0.5], 2, [[10, 3], [10, 5]]) == ["20,2", "20,2"]
  {
    TiesGoToEven();
    var rows: seq<Row> := [[10, 3], [10, 5]];
    assert ScaleCell(2.0, 10) == 20 by { RoundHalfEvenUnique(20.0, 20); }
    assert AdjustRow([2.0, 0.5], 2, rows[0]) == [20, 2];
    assert AdjustRow([2.0, 0.5], 2, rows[1]) == [20, 2];
    assert ScaledRows([2.0, 0.5], 2, rows) == [[20, 2], [20, 2]];
    assert IntToString(20) == "20";
    assert IntToString(2) == "2";
    assert JoinInts([20, 2]) == "20,2" by {
      assert Texts([20, 2]) == ["20", "2"];
    }
  }
}
