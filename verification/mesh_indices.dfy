/** The integer part of the triangulation in `createSuperShape`: which vertex
    table entries each grid cell hands to `tri`, in which order, and how far
    those indices reach. */
module MeshIndices {
  import opened Vertices

  /** `quad(a, b, c, d)` calls `tri(a, d, c)` and then `tri(a, b, d)`. */
  function QuadOrder(a: nat, b: nat, c: nat, d: nat): seq<nat>
  {
    [a, d, c, a, b, d]
  }

  /** The `quad` call of cell `(i, j)` under stride `row`:
      `p1 = i * row + j`, `p2 = p1 + row`, `quad(p1, p1 + 1, p2, p2 + 1)`. */
  function CellIndices(i: nat, j: nat, row: nat): seq<nat>
  {
    var p1 := TableIndex(i, j, row);
    var p2 := p1 + row;
    QuadOrder(p1, p1 + 1, p2, p2 + 1)
  }

  /** The inner cell loop of row `i`, from column `j` up to `cols - 1`. */
  function RowCells(i: nat, j: nat, cols: nat, row: nat): (r: seq<nat>)
    requires j <= cols
    ensures |r| == 6 * (cols - j)
    ensures forall c :: j <= c < cols ==> r[6 * (c - j) .. 6 * (c - j) + 6] == CellIndices(i, c, row)
    decreases cols - j
  {
    if j == cols then []
    else
      var rest := RowCells(i, j + 1, cols, row);
      var r := CellIndices(i, j, row) + rest;
      forall c | j < c < cols
        ensures r[6 * (c - j) .. 6 * (c - j) + 6] == CellIndices(i, c, row)
      {
        SliceOfSuffix(CellIndices(i, j, row), rest, 6 * (c - j - 1), 6 * (c - j - 1) + 6);
      }
      assert r[0..6] == CellIndices(i, j, row);
      r
  }

  lemma SliceOfSuffix<T>(a: seq<T>, b: seq<T>, lo: nat, hi: nat)
    requires lo <= hi <= |b|
    ensures (a + b)[|a| + lo .. |a| + hi] == b[lo..hi]
  {
  }

  lemma SliceOfPrefix<T>(a: seq<T>, b: seq<T>, lo: nat, hi: nat)
    requires lo <= hi <= |a|
    ensures (a + b)[lo..hi] == a[lo..hi]
  {
  }

  /** The outer cell loop from row `i` up to `rows - 1`; each row runs the
      inner loop over all `cols` columns. */
  function GridFrom(i: nat, rows: nat, cols: nat, row: nat): (r: seq<nat>)
    requires i <= rows
    ensures |r| == 6 * Mul(rows - i, cols)
    decreases rows - i
  {
    if i == rows then [] else RowCells(i, 0, cols, row) + GridFrom(i + 1, rows, cols, row)
  }

  /** Cell `(i, c)` is block `c` of the loop started at row `i`. */
  lemma GridFromHead(i: nat, rows: nat, cols: nat, row: nat, c: nat)
    requires i < rows && c < cols
    ensures 6 * c + 6 <= |GridFrom(i, rows, cols, row)|
    ensures GridFrom(i, rows, cols, row)[6 * c .. 6 * c + 6] == CellIndices(i, c, row)
  {
    var first, rest := RowCells(i, 0, cols, row), GridFrom(i + 1, rows, cols, row);
    assert GridFrom(i, rows, cols, row) == first + rest;
    SliceOfPrefix(first, rest, 6 * c, 6 * c + 6);
  }

  /** A block of the loop started at row `i + 1` moves back by one row of
      `6 * cols` indices in the loop started at row `i`. */
  lemma GridFromTail(i: nat, rows: nat, cols: nat, row: nat, r: nat, c: nat)
    requires i < r < rows && c < cols
    requires 6 * TableIndex(r - (i + 1), c, cols) + 6 <= |GridFrom(i + 1, rows, cols, row)|
    requires GridFrom(i + 1, rows, cols, row)[6 * TableIndex(r - (i + 1), c, cols) .. 6 * TableIndex(r - (i + 1), c, cols) + 6] ==
      CellIndices(r, c, row)
    ensures 6 * TableIndex(r - i, c, cols) + 6 <= |GridFrom(i, rows, cols, row)|
    ensures GridFrom(i, rows, cols, row)[6 * TableIndex(r - i, c, cols) .. 6 * TableIndex(r - i, c, cols) + 6] == CellIndices(r, c, row)
  {
    var first, rest := RowCells(i, 0, cols, row), GridFrom(i + 1, rows, cols, row);
    var block := CellIndices(r, c, row);
    var lo := 6 * TableIndex(r - (i + 1), c, cols);
    assert GridFrom(i, rows, cols, row) == first + rest;
    assert |block| == 6;
    assert 6 * TableIndex(r - i, c, cols) == |first| + lo;
    BlockAfterPrefix(GridFrom(i, rows, cols, row), first, rest, 6 * TableIndex(r - i, c, cols), lo, block);
  }

  /** Cell `(r, c)` of the loop started at row `i` is the
      `TableIndex(r - i, c, cols)`-th block of six indices: row `i` comes
      first, the later rows after it. */
  lemma {:induction false} GridFromCell(i: nat, rows: nat, cols: nat, row: nat, r: nat, c: nat)
    requires i <= r < rows && c < cols
    ensures 6 * TableIndex(r - i, c, cols) + 6 <= |GridFrom(i, rows, cols, row)|
    ensures GridFrom(i, rows, cols, row)[6 * TableIndex(r - i, c, cols) .. 6 * TableIndex(r - i, c, cols) + 6] == CellIndices(r, c, row)
    decreases rows - i
  {
    if r == i {
      assert TableIndex(r - i, c, cols) == c;
      GridFromHead(i, rows, cols, row, c);
    } else {
      GridFromCell(i + 1, rows, cols, row, r, c);
      GridFromTail(i, rows, cols, row, r, c);
    }
  }

  /** Every cell of the loop started at row `i`, at once. */
  lemma GridFromLayout(i: nat, rows: nat, cols: nat, row: nat)
    requires i <= rows
    ensures forall d: nat, c: nat :: d < rows - i && c < cols ==>
      6 * TableIndex(d, c, cols) + 6 <= |GridFrom(i, rows, cols, row)| &&
      GridFrom(i, rows, cols, row)[6 * TableIndex(d, c, cols) .. 6 * TableIndex(d, c, cols) + 6] == CellIndices(i + d, c, row)
  {
    forall d: nat, c: nat | d < rows - i && c < cols
      ensures 6 * TableIndex(d, c, cols) + 6 <= |GridFrom(i, rows, cols, row)| &&
        GridFrom(i, rows, cols, row)[6 * TableIndex(d, c, cols) .. 6 * TableIndex(d, c, cols) + 6] == CellIndices(i + d, c, row)
    {
      GridFromCell(i, rows, cols, row, i + d, c);
      assert i + d - i == d;
    }
  }

  /** A block at `lo` of `rest` sits at `|first| + lo` of `first + rest`. */
  lemma BlockAfterPrefix<T>(whole: seq<T>, first: seq<T>, rest: seq<T>, at: nat, lo: nat, block: seq<T>)
    requires whole == first + rest && at == |first| + lo
    requires lo + |block| <= |rest| && rest[lo .. lo + |block|] == block
    ensures at + |block| <= |whole| && whole[at .. at + |block|] == block
  {
    SliceOfSuffix(first, rest, lo, lo + |block|);
  }

  /** The whole index stream of the cell loops: rows `0 .. rows - 1`,
      columns `0 .. cols - 1`, stride `row`. */
  function GridIndices(rows: nat, cols: nat, row: nat): (r: seq<nat>)
  {
    GridFrom(0, rows, cols, row)
  }

  /** Every index of `s` is a valid position in a table of `n` entries. */
  predicate AllBelow(s: seq<nat>, n: nat)
  {
    forall k :: 0 <= k < |s| ==> s[k] < n
  }

  lemma AllBelowAppend(s: seq<nat>, t: seq<nat>, n: nat)
    requires AllBelow(s, n) && AllBelow(t, n)
    ensures AllBelow(s + t, n)
  {
  }

  /** The largest index of a cell is its `p2 + 1` corner, `TableIndex(i + 1, j + 1, row)`. */
  lemma CellMax(i: nat, j: nat, row: nat)
    ensures forall k :: 0 <= k < 6 ==> CellIndices(i, j, row)[k] <= TableIndex(i + 1, j + 1, row)
    ensures CellIndices(i, j, row)[1] == TableIndex(i + 1, j + 1, row)
  {
  }

  lemma {:induction false} RowCellsBelow(i: nat, j: nat, cols: nat, row: nat, n: nat)
    requires j <= cols
    requires TableIndex(i + 1, cols, row) < n
    ensures AllBelow(RowCells(i, j, cols, row), n)
    decreases cols - j
  {
    if j < cols {
      CellMax(i, j, row);
      RowCellsBelow(i, j + 1, cols, row, n);
      AllBelowAppend(CellIndices(i, j, row), RowCells(i, j + 1, cols, row), n);
    }
  }

  lemma {:induction false} GridFromBelow(i: nat, rows: nat, cols: nat, row: nat, n: nat)
    requires i <= rows
    requires TableIndex(rows, cols, row) < n
    ensures AllBelow(GridFrom(i, rows, cols, row), n)
    decreases rows - i
  {
    if i < rows {
      assert TableIndex(i + 1, cols, row) <= TableIndex(rows, cols, row) by {
        MulLeftMono(i + 1, rows, row);
      }
      RowCellsBelow(i, 0, cols, row, n);
      GridFromBelow(i + 1, rows, cols, row, n);
      AllBelowAppend(RowCells(i, 0, cols, row), GridFrom(i + 1, rows, cols, row), n);
    }
  }

  /** The index stream has six entries per cell, and the `quad` of cell
      `(i, j)` occupies entries `6 * (i * cols + j) .. 6 * (i * cols + j) + 5`:
      cells are visited row by row, columns innermost. */
  lemma GridIndicesLayout(rows: nat, cols: nat, row: nat)
    ensures |GridIndices(rows, cols, row)| == 6 * (rows * cols)
    ensures forall i, j :: 0 <= i < rows && 0 <= j < cols ==>
      6 * TableIndex(i, j, cols) + 6 <= |GridIndices(rows, cols, row)| &&
      GridIndices(rows, cols, row)[6 * TableIndex(i, j, cols) .. 6 * TableIndex(i, j, cols) + 6] == CellIndices(i, j, row)
  {
    var r := GridIndices(rows, cols, row);
    MulIsProduct(rows, cols);
    forall i, j | 0 <= i < rows && 0 <= j < cols
      ensures 6 * TableIndex(i, j, cols) + 6 <= |r| &&
        r[6 * TableIndex(i, j, cols) .. 6 * TableIndex(i, j, cols) + 6] == CellIndices(i, j, row)
    {
      GridFromCell(0, rows, cols, row, i, j);
    }
  }

  /** The cell loops produce six indices per cell. */
  lemma GridIndicesLength(rows: nat, cols: nat, row: nat)
    ensures |GridIndices(rows, cols, row)| == 6 * (rows * cols)
  {
    MulIsProduct(rows, cols);
  }

  /** The largest index the cell loops produce is `TableIndex(rows, cols, row)`
      (the `p2 + 1` corner of the last cell), and it is produced. */
  lemma {:induction false} GridIndicesMax(rows: nat, cols: nat, row: nat)
    requires rows > 0 && cols > 0
    ensures forall n :: AllBelow(GridIndices(rows, cols, row), n) <==> TableIndex(rows, cols, row) < n
  {
    var r := GridIndices(rows, cols, row);
    var last := 6 * TableIndex(rows - 1, cols - 1, cols);
    GridIndicesLayout(rows, cols, row);
    assert r[last..last + 6] == CellIndices(rows - 1, cols - 1, row);
    CellMax(rows - 1, cols - 1, row);
    assert r[last + 1] == TableIndex(rows, cols, row);
    forall n | TableIndex(rows, cols, row) < n
      ensures AllBelow(r, n)
    {
      GridFromBelow(0, rows, cols, row, n);
    }
  }

  /** The last cell's far corner under the source's stride lies inside the
      table exactly when `parallels <= meridians`. */
  lemma SourceStrideArithmetic(meridians: nat, parallels: nat)
    requires parallels > 0 && meridians > 0
    ensures parallels * (parallels + 1) + meridians < (parallels + 1) * (meridians + 1) <==> parallels <= meridians
  {
    if parallels <= meridians {
      assert parallels * parallels <= parallels * meridians;
    } else {
      assert parallels * parallels >= parallels * (meridians + 1);
    }
  }

  /** With the source's stride `row = parallels + 1` and a vertex table of
      `(parallels + 1) * (meridians + 1)` entries, every index the cell loops
      produce is inside the table exactly when `parallels <= meridians`
      (or one of the loops is empty). */
  lemma {:induction false} SourceStrideInRangeIff(meridians: nat, parallels: nat)
    ensures AllBelow(GridIndices(parallels, meridians, parallels + 1), (parallels + 1) * (meridians + 1))
      <==> (parallels == 0 || meridians == 0 || parallels <= meridians)
  {
    if parallels > 0 && meridians > 0 {
      GridIndicesMax(parallels, meridians, parallels + 1);
      MulIsProduct(parallels, parallels + 1);
      SourceStrideArithmetic(meridians, parallels);
    } else {
      GridIndicesLayout(parallels, meridians, parallels + 1);
    }
  }

  /** With stride `meridians + 1`, the true row width of the vertex table,
      every index is inside the table for every grid size. */
  lemma {:induction false} RowWidthStrideInRange(meridians: nat, parallels: nat)
    ensures AllBelow(GridIndices(parallels, meridians, meridians + 1), (parallels + 1) * (meridians + 1))
  {
    if parallels > 0 && meridians > 0 {
      GridIndicesMax(parallels, meridians, meridians + 1);
      MulIsProduct(parallels, meridians + 1);
      MulIsProduct(parallels + 1, meridians + 1);
    } else {
      GridIndicesLayout(parallels, meridians, meridians + 1);
    }
  }
}
