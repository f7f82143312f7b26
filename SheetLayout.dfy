/**
 * The column fitting two of the rule-extraction scripts apply to their sheets: every column
 * gets two characters more than its longest cell, but never more than 50. A sheet is its
 * rows of cell texts, header row first; a cell a row does not fill reads as `str(None)`.
 */
module SheetLayout {

  const MaxWidth: nat := 50

  /** `str(cell.value)` of column c in row r. */
  function Cell(rows: seq<seq<string>>, r: nat, c: nat): string
    requires r < |rows|
  {
    if c < |rows[r]| then rows[r][c] else "None"
  }

  /** The number of columns of the first n rows: the length of the longest. */
  function ColumnsTo(rows: seq<seq<string>>, n: nat): (w: nat)
    requires n <= |rows|
    ensures forall r :: 0 <= r < n ==> |rows[r]| <= w
    ensures w == 0 || exists r :: 0 <= r < n && |rows[r]| == w
  {
    if n == 0 then 0
    else
      var w := ColumnsTo(rows, n - 1);
      if |rows[n - 1]| > w then |rows[n - 1]| else w
  }

  function Columns(rows: seq<seq<string>>): nat {
    ColumnsTo(rows, |rows|)
  }

  /** The length of the longest cell of column c among the first n rows. */
  function LongestTo(rows: seq<seq<string>>, c: nat, n: nat): nat
    requires n <= |rows|
  {
    if n == 0 then 0
    else
      var m := LongestTo(rows, c, n - 1);
      if |Cell(rows, n - 1, c)| > m then |Cell(rows, n - 1, c)| else m
  }

  /** `min(longest + 2, 50)` */
  function FitWidth(longest: nat): nat {
    if longest + 2 < MaxWidth then longest + 2 else MaxWidth
  }

  /** The longest cell bounds every cell of the column, and some cell is that long. */
  lemma {:induction false} LongestToSpec(rows: seq<seq<string>>, c: nat, n: nat) returns (r: nat)
    requires 0 < n <= |rows|
    ensures r < n && |Cell(rows, r, c)| == LongestTo(rows, c, n)
    ensures forall k :: 0 <= k < n ==> |Cell(rows, k, c)| <= LongestTo(rows, c, n)
  {
    if n == 1 {
      r := 0;
    } else {
      r := LongestToSpec(rows, c, n - 1);
      if |Cell(rows, n - 1, c)| > LongestTo(rows, c, n - 1) {
        r := n - 1;
      }
    }
  }

  /**
   * A fitted column is never wider than 50; it is at least two wider than each of its cells
   * unless it is 50 wide; and it is exactly two wider than one of its cells, or 50.
   */
  lemma FitWidthSpec(rows: seq<seq<string>>, c: nat)
    requires |rows| > 0
    ensures var w := FitWidth(LongestTo(rows, c, |rows|));
            && w <= MaxWidth
            && (forall k :: 0 <= k < |rows| ==> w == MaxWidth || |Cell(rows, k, c)| + 2 <= w)
            && (w == MaxWidth || exists k :: 0 <= k < |rows| && w == |Cell(rows, k, c)| + 2)
  {
    var r := LongestToSpec(rows, c, |rows|);
  }

  /** `max(len(str(cell.value)) for cell in col)` for column c. */
  method LongestCell(rows: seq<seq<string>>, c: nat) returns (longest: nat)
    ensures longest == LongestTo(rows, c, |rows|)
  {
    longest := 0;
    var r := 0;
    while r < |rows|
      invariant r <= |rows| && longest == LongestTo(rows, c, r)
    {
      var n := |Cell(rows, r, c)|;
      if n > longest {
        longest := n;
      }
      r := r + 1;
    }
  }

  /** `auto_fit_columns(sheet)`: the width it gives each column, left to right. */
  method AutoFitColumns(rows: seq<seq<string>>) returns (widths: seq<nat>)
    ensures |widths| == Columns(rows)
    ensures forall c :: 0 <= c < |widths| ==> widths[c] == FitWidth(LongestTo(rows, c, |rows|))
  {
    widths := [];
    var columns := Columns(rows);
    var c := 0;
    while c < columns
      invariant c <= columns && |widths| == c
      invariant forall c' :: 0 <= c' < c ==> widths[c'] == FitWidth(LongestTo(rows, c', |rows|))
    {
      var longest := LongestCell(rows, c);
      widths := widths + [FitWidth(longest)];
      c := c + 1;
    }
  }
}
