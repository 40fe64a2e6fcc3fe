/** The vertex table of `createSuperShape`: the superformula samples of the
    latitude/longitude grid, pushed row by row. The floating-point sampling
    itself is opaque: a caller-supplied `sample(i, j)` gives the point computed
    for parallel `i` and meridian `j`. */
module Vertices {

  /** One entry of the vertex table: the `[x, y, z]` array pushed for a grid sample. */
  datatype Point<F> = Point(x: F, y: F, z: F)

  /** Number of iterations of `for (k = 0; k <= n; ++k)` for any integer bound `n`. */
  function InclusiveCount(n: int): (r: nat)
    ensures n >= 0 ==> r == n + 1
    ensures n < 0 ==> r == 0
  {
    if n < 0 then 0 else n + 1
  }

  /** Number of iterations of `for (k = 0; k < n; ++k)` for any integer bound `n`. */
  function ExclusiveCount(n: int): (r: nat)
    ensures n >= 0 ==> r == n
    ensures n < 0 ==> r == 0
  {
    if n < 0 then 0 else n
  }

  /** `a * b` by repeated addition. Positions in the table are products of
      two unknowns; spelling the product this way keeps the proofs in linear
      arithmetic, and `MulIsProduct` ties it back to `*`. */
  function Mul(a: nat, b: nat): nat
  {
    if a == 0 then 0 else b + Mul(a - 1, b)
  }

  lemma {:induction false} MulIsProduct(a: nat, b: nat)
    ensures Mul(a, b) == a * b
  {
    if a > 0 {
      MulIsProduct(a - 1, b);
    }
  }

  lemma {:induction false} MulLeftMono(a: nat, b: nat, c: nat)
    requires a <= b
    ensures Mul(a, c) <= Mul(b, c)
    decreases b
  {
    if a < b {
      MulLeftMono(a, b - 1, c);
    }
  }

  /** Position of grid sample `(i, j)` in a table whose rows hold `width`
      samples: `i * width + j`. */
  function TableIndex(i: nat, j: nat, width: nat): nat
  {
    Mul(i, width) + j
  }

  lemma IndexInEarlierRows(i: nat, j: nat, height: nat, width: nat)
    requires i < height && j < width
    ensures TableIndex(i, j, width) < Mul(height, width)
  {
    MulLeftMono(i + 1, height, width);
  }

  /** The inner loop: samples `(i, 0) .. (i, width - 1)` in push order. */
  function Row<F>(sample: (nat, nat) -> Point<F>, i: nat, width: nat): (r: seq<Point<F>>)
    ensures |r| == width
  {
    if width == 0 then [] else Row(sample, i, width - 1) + [sample(i, width - 1)]
  }

  /** The outer loop: rows `0 .. height - 1`, each of `width` samples, concatenated. */
  function Rows<F>(sample: (nat, nat) -> Point<F>, height: nat, width: nat): (r: seq<Point<F>>)
    ensures |r| == Mul(height, width)
  {
    if height == 0 then [] else Rows(sample, height - 1, width) + Row(sample, height - 1, width)
  }

  /** Entry `j` of row `i` is the sample for `(i, j)`. */
  lemma {:induction false} RowEntries<F>(sample: (nat, nat) -> Point<F>, i: nat, width: nat)
    ensures forall j :: 0 <= j < width ==> Row(sample, i, width)[j] == sample(i, j)
  {
    if width > 0 {
      RowEntries(sample, i, width - 1);
    }
  }

  /** Entry `TableIndex(i, j, width)` of the rows is the sample for `(i, j)`:
      an earlier row sits in the prefix, the last row right after it. */
  lemma {:induction false} RowsEntry<F>(sample: (nat, nat) -> Point<F>, height: nat, width: nat, i: nat, j: nat)
    requires i < height && j < width
    ensures TableIndex(i, j, width) < |Rows(sample, height, width)|
    ensures Rows(sample, height, width)[TableIndex(i, j, width)] == sample(i, j)
  {
    var prefix := Rows(sample, height - 1, width);
    var last := Row(sample, height - 1, width);
    assert Rows(sample, height, width) == prefix + last;
    var k := TableIndex(i, j, width);
    if i < height - 1 {
      RowsEntry(sample, height - 1, width, i, j);
      IndexInEarlierRows(i, j, height - 1, width);
      assert (prefix + last)[k] == prefix[k];
    } else {
      RowEntries(sample, height - 1, width);
      assert k == |prefix| + j;
      assert (prefix + last)[k] == last[j];
    }
  }

  /** Every entry of the rows, at once. */
  lemma RowsEntries<F>(sample: (nat, nat) -> Point<F>, height: nat, width: nat)
    ensures forall i, j :: 0 <= i < height && 0 <= j < width ==>
      TableIndex(i, j, width) < |Rows(sample, height, width)| &&
      Rows(sample, height, width)[TableIndex(i, j, width)] == sample(i, j)
  {
    forall i, j | 0 <= i < height && 0 <= j < width
      ensures TableIndex(i, j, width) < |Rows(sample, height, width)| &&
        Rows(sample, height, width)[TableIndex(i, j, width)] == sample(i, j)
    {
      RowsEntry(sample, height, width, i, j);
    }
  }

  /** `createSuperShape` lines building `vertices`: `i` over `0..parallels`,
      `j` over `0..meridians`, both bounds inclusive. */
  function VertexTable<F>(sample: (nat, nat) -> Point<F>, meridians: int, parallels: int): (r: seq<Point<F>>)
    ensures |r| == Mul(InclusiveCount(parallels), InclusiveCount(meridians))
  {
    Rows(sample, InclusiveCount(parallels), InclusiveCount(meridians))
  }

  /** The table holds exactly one entry per grid sample, and entry
      `TableIndex(i, j, meridians + 1)`, that is `i * (meridians + 1) + j`,
      is the sample for `(i, j)`. */
  lemma VertexTableLayout<F>(sample: (nat, nat) -> Point<F>, meridians: nat, parallels: nat)
    ensures |VertexTable(sample, meridians, parallels)| == (parallels + 1) * (meridians + 1)
    ensures forall i, j :: 0 <= i <= parallels && 0 <= j <= meridians ==>
      TableIndex(i, j, meridians + 1) < |VertexTable(sample, meridians, parallels)| &&
      VertexTable(sample, meridians, parallels)[TableIndex(i, j, meridians + 1)] == sample(i, j)
  {
    MulIsProduct(parallels + 1, meridians + 1);
    RowsEntries(sample, parallels + 1, meridians + 1);
  }

  /** One entry of the table: row `i`, column `j` holds `sample(i, j)`. */
  lemma VertexTableAt<F>(sample: (nat, nat) -> Point<F>, meridians: nat, parallels: nat, i: nat, j: nat)
    requires i <= parallels && j <= meridians
    ensures TableIndex(i, j, meridians + 1) < |VertexTable(sample, meridians, parallels)|
    ensures VertexTable(sample, meridians, parallels)[TableIndex(i, j, meridians + 1)] == sample(i, j)
  {
    VertexTableLayout(sample, meridians, parallels);
  }

  /** The converse reading: every entry `k` of the table is the sample whose
      row is `k / (meridians + 1)` and whose column is `k % (meridians + 1)`. */
  lemma {:induction false} VertexTableEntry<F>(sample: (nat, nat) -> Point<F>, meridians: nat, parallels: nat, k: nat)
    requires k < (parallels + 1) * (meridians + 1)
    ensures k < |VertexTable(sample, meridians, parallels)|
    ensures VertexTable(sample, meridians, parallels)[k] == sample(k / (meridians + 1), k % (meridians + 1))
  {
    var w := meridians + 1;
    var i, j := k / w, k % w;
    DivideIntoRows(k, w, parallels + 1);
    VertexTableLayout(sample, meridians, parallels);
    assert TableIndex(i, j, w) == k;
  }

  /** Splitting a position `k` of a table with `height` rows of `width`
      entries into its row `k / width` and column `k % width`. */
  lemma DivideIntoRows(k: nat, width: nat, height: nat)
    requires width > 0 && k < height * width
    ensures k / width < height
    ensures TableIndex(k / width, k % width, width) == k
  {
    MulIsProduct(k / width, width);
  }

  /** A negative bound on either loop leaves the table empty. */
  lemma VertexTableEmpty<F>(sample: (nat, nat) -> Point<F>, meridians: int, parallels: int)
    requires meridians < 0 || parallels < 0
    ensures VertexTable(sample, meridians, parallels) == []
  {
    MulIsProduct(InclusiveCount(parallels), InclusiveCount(meridians));
  }
}
