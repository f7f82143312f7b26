/**
 * The order in which the comparison scripts visit the similarity matrix: the all-vs-all scan
 * `for i in range(n): for j in range(i + 1, n)` and the one-vs-many scan
 * `for i in range(n): for j in range(n, total)`.
 */
module ScanOrder {

  /** A position of the similarity matrix: the row block and the column block. */
  datatype Cell = Cell(row: int, col: int)

  /** The pairs (i, lo), (i, lo + 1), ..., (i, hi - 1): `for j in range(lo, hi)` at row i. */
  function RowPairs(i: nat, lo: nat, hi: nat): (ps: seq<Cell>)
    ensures |ps| == if lo <= hi then hi - lo else 0
  {
    if lo >= hi then [] else RowPairs(i, lo, hi - 1) + [Cell(i, hi - 1)]
  }

  /** The k-th pair of row i's inner loop is (i, lo + k). */
  lemma {:induction false} RowPairsAt(i: nat, lo: nat, hi: nat, k: nat)
    requires k < |RowPairs(i, lo, hi)|
    ensures RowPairs(i, lo, hi)[k] == Cell(i, lo + k)
  {
    if k < |RowPairs(i, lo, hi - 1)| {
      RowPairsAt(i, lo, hi - 1, k);
    }
  }

  /** The all-vs-all scan of rows 0 .. rows - 1 of an n-by-n matrix. */
  function TrianglePairs(n: nat, rows: nat): seq<Cell> {
    if rows == 0 then [] else TrianglePairs(n, rows - 1) + RowPairs(rows - 1, rows, n)
  }

  /** The one-vs-many scan of rows 0 .. rows - 1: columns n .. total - 1 of each row. */
  function CrossPairs(n: nat, total: nat, rows: nat): seq<Cell> {
    if rows == 0 then [] else CrossPairs(n, total, rows - 1) + RowPairs(rows - 1, n, total)
  }

  predicate LexLess(p: Cell, q: Cell) {
    p.row < q.row || (p.row == q.row && p.col < q.col)
  }

  /** Strictly increasing in row-then-column order, so no pair is visited twice. */
  predicate ScanOrdered(ps: seq<Cell>) {
    forall a, b :: 0 <= a < b < |ps| ==> LexLess(ps[a], ps[b])
  }

  lemma RowPairsOrdered(i: nat, lo: nat, hi: nat)
    ensures ScanOrdered(RowPairs(i, lo, hi))
  {
    var row := RowPairs(i, lo, hi);
    forall a, b | 0 <= a < b < |row|
      ensures LexLess(row[a], row[b])
    {
      RowPairsAt(i, lo, hi, a);
      RowPairsAt(i, lo, hi, b);
    }
  }

  /** Two ordered runs, the first entirely before the second, make an ordered run. */
  lemma OrderedConcat(ps: seq<Cell>, qs: seq<Cell>)
    requires ScanOrdered(ps) && ScanOrdered(qs)
    requires forall a, b :: 0 <= a < |ps| && 0 <= b < |qs| ==> LexLess(ps[a], qs[b])
    ensures ScanOrdered(ps + qs)
  {
    var r := ps + qs;
    forall a, b | 0 <= a < b < |r|
      ensures LexLess(r[a], r[b])
    {
      if b < |ps| {
        assert r[a] == ps[a] && r[b] == ps[b];
      } else if a < |ps| {
        assert r[a] == ps[a] && r[b] == qs[b - |ps|];
      } else {
        assert r[a] == qs[a - |ps|] && r[b] == qs[b - |ps|];
      }
    }
  }

  /** Pair c is visited by row i's inner loop exactly when it lies in that row between lo and hi. */
  lemma InRow(c: Cell, i: nat, lo: nat, hi: nat)
    ensures c in RowPairs(i, lo, hi) <==> c.row == i && lo <= c.col < hi
  {
    var row := RowPairs(i, lo, hi);
    if c.row == i && lo <= c.col < hi {
      RowPairsAt(i, lo, hi, c.col - lo);
      assert row[c.col - lo] == c;
    }
    if c in row {
      var k :| 0 <= k < |row| && row[k] == c;
      RowPairsAt(i, lo, hi, k);
    }
  }

  /** Every pair of the all-vs-all scan lies above the diagonal, in one of the scanned rows. */
  lemma {:induction false} TriangleAt(n: nat, rows: nat, k: nat)
    requires k < |TrianglePairs(n, rows)|
    ensures var c := TrianglePairs(n, rows)[k]; 0 <= c.row < rows && c.row < c.col < n
  {
    var prev, row := TrianglePairs(n, rows - 1), RowPairs(rows - 1, rows, n);
    assert TrianglePairs(n, rows) == prev + row;
    if k < |prev| {
      TriangleAt(n, rows - 1, k);
      assert (prev + row)[k] == prev[k];
    } else {
      RowPairsAt(rows - 1, rows, n, k - |prev|);
      assert (prev + row)[k] == row[k - |prev|];
    }
  }

  /** The all-vs-all scan visits exactly the pairs i < j < n: no block is compared with itself. */
  lemma {:induction false} TriangleMember(n: nat, rows: nat, c: Cell)
    ensures c in TrianglePairs(n, rows) <==> 0 <= c.row < rows && c.row < c.col < n
  {
    if rows > 0 {
      var prev, row := TrianglePairs(n, rows - 1), RowPairs(rows - 1, rows, n);
      TriangleMember(n, rows - 1, c);
      InRow(c, rows - 1, rows, n);
      assert TrianglePairs(n, rows) == prev + row;
    }
  }

  /** The all-vs-all scan goes row by row and column by column, so each unordered pair is scored once. */
  lemma {:induction false} TrianglePairsOrdered(n: nat, rows: nat)
    ensures ScanOrdered(TrianglePairs(n, rows))
  {
    if rows > 0 {
      var prev, row := TrianglePairs(n, rows - 1), RowPairs(rows - 1, rows, n);
      TrianglePairsOrdered(n, rows - 1);
      RowPairsOrdered(rows - 1, rows, n);
      forall a, b | 0 <= a < |prev| && 0 <= b < |row|
        ensures LexLess(prev[a], row[b])
      {
        TriangleAt(n, rows - 1, a);
        RowPairsAt(rows - 1, rows, n, b);
      }
      OrderedConcat(prev, row);
    }
  }

  lemma TriangleStepArith(r: int, n: int, before: int, after: int)
    requires 2 * before == (r - 1) * (2 * n - (r - 1) - 1)
    requires after == before + (n - r)
    ensures 2 * after == r * (2 * n - r - 1)
  {
    calc {
      (r - 1) * (2 * n - (r - 1) - 1);
      (r - 1) * (2 * n - r);
      r * (2 * n - r) - (2 * n - r);
    }
  }

  /** Rows 0 .. rows - 1 of the all-vs-all scan hold rows * (2n - rows - 1) / 2 pairs; n(n - 1)/2 in all. */
  lemma {:induction false} TrianglePairsCount(n: nat, rows: nat)
    requires rows <= n
    ensures 2 * |TrianglePairs(n, rows)| == rows * (2 * n - rows - 1)
  {
    if rows > 0 {
      var prev, row := TrianglePairs(n, rows - 1), RowPairs(rows - 1, rows, n);
      TrianglePairsCount(n, rows - 1);
      assert TrianglePairs(n, rows) == prev + row;
      TriangleStepArith(rows, n, |prev|, |prev| + |row|);
    }
  }

  /** Every pair of the one-vs-many scan pairs a scanned row with a corpus column. */
  lemma {:induction false} CrossAt(n: nat, total: nat, rows: nat, k: nat)
    requires k < |CrossPairs(n, total, rows)|
    ensures var c := CrossPairs(n, total, rows)[k]; 0 <= c.row < rows && n <= c.col < total
  {
    var prev, row := CrossPairs(n, total, rows - 1), RowPairs(rows - 1, n, total);
    assert CrossPairs(n, total, rows) == prev + row;
    if k < |prev| {
      CrossAt(n, total, rows - 1, k);
      assert (prev + row)[k] == prev[k];
    } else {
      RowPairsAt(rows - 1, n, total, k - |prev|);
      assert (prev + row)[k] == row[k - |prev|];
    }
  }

  /** The one-vs-many scan visits exactly the reference rows against the corpus columns. */
  lemma {:induction false} CrossMember(n: nat, total: nat, rows: nat, c: Cell)
    ensures c in CrossPairs(n, total, rows) <==> 0 <= c.row < rows && n <= c.col < total
  {
    if rows > 0 {
      var prev, row := CrossPairs(n, total, rows - 1), RowPairs(rows - 1, n, total);
      CrossMember(n, total, rows - 1, c);
      InRow(c, rows - 1, n, total);
      assert CrossPairs(n, total, rows) == prev + row;
    }
  }

  /** The one-vs-many scan goes row by row and column by column. */
  lemma {:induction false} CrossPairsOrdered(n: nat, total: nat, rows: nat)
    ensures ScanOrdered(CrossPairs(n, total, rows))
  {
    if rows > 0 {
      var prev, row := CrossPairs(n, total, rows - 1), RowPairs(rows - 1, n, total);
      CrossPairsOrdered(n, total, rows - 1);
      RowPairsOrdered(rows - 1, n, total);
      forall a, b | 0 <= a < |prev| && 0 <= b < |row|
        ensures LexLess(prev[a], row[b])
      {
        CrossAt(n, total, rows - 1, a);
        RowPairsAt(rows - 1, n, total, b);
      }
      OrderedConcat(prev, row);
    }
  }

  lemma CrossStepArith(r: int, w: int, before: int, after: int)
    requires before == (r - 1) * w && after == before + w
    ensures after == r * w
  {
  }

  /** The one-vs-many scan scores rows * (total - n) pairs. */
  lemma {:induction false} CrossPairsCount(n: nat, total: nat, rows: nat)
    requires n <= total
    ensures |CrossPairs(n, total, rows)| == rows * (total - n)
  {
    if rows > 0 {
      var prev, row := CrossPairs(n, total, rows - 1), RowPairs(rows - 1, n, total);
      CrossPairsCount(n, total, rows - 1);
      assert CrossPairs(n, total, rows) == prev + row;
      CrossStepArith(rows, total - n, |prev|, |prev| + |row|);
    }
  }

  lemma TriangleRow(n: nat, i: nat)
    ensures TrianglePairs(n, i + 1) == TrianglePairs(n, i) + RowPairs(i, i + 1, n)
  {
  }

  lemma CrossRow(n: nat, total: nat, i: nat)
    ensures CrossPairs(n, total, i + 1) == CrossPairs(n, total, i) + RowPairs(i, n, total)
  {
  }
}
