/** What `createSuperShape` promises its caller: when it returns, how long
    the stream is, which vertices each grid cell emits and in which winding;
    and when it throws. */
module SuperShape {
  import opened Wrappers
  import opened Vertices
  import opened MeshIndices
  import opened Mesh

  /** The eighteen coordinates of one cell: the two triangles `(a, d, c)` and `(a, b, d)`. */
  function QuadCoords<F>(a: Point<F>, b: Point<F>, c: Point<F>, d: Point<F>): seq<F>
  {
    Coords(a) + Coords(d) + Coords(c) + Coords(a) + Coords(b) + Coords(d)
  }

  /** `quad(a, b, c, d)` appends two triangles, `(a, d, c)` and then
      `(a, b, d)`, both starting at `a`, when all four corners are in the
      table; otherwise it throws at the first missing corner in the order
      `a`, `d`, `c`, `b` and appends nothing. */
  lemma QuadTriangles<F>(vertices: seq<Point<F>>, points: seq<F>, a: nat, b: nat, c: nat, d: nat)
    ensures Quad(vertices, points, a, b, c, d).Success? <==>
      a < |vertices| && b < |vertices| && c < |vertices| && d < |vertices|
    ensures Quad(vertices, points, a, b, c, d).Success? ==>
      Quad(vertices, points, a, b, c, d).value == points + QuadCoords(vertices[a], vertices[b], vertices[c], vertices[d])
    ensures Quad(vertices, points, a, b, c, d).Failure? ==>
      Quad(vertices, points, a, b, c, d).error ==
        UndefinedVertex(if a >= |vertices| then a else if d >= |vertices| then d else if c >= |vertices| then c else b)
  {
    if a < |vertices| && b < |vertices| && c < |vertices| && d < |vertices| {
      var ca, cb, cc, cd := Coords(vertices[a]), Coords(vertices[b]), Coords(vertices[c]), Coords(vertices[d]);
      assert points + ca + cd + cc + ca + cb + cd == points + (ca + cd + cc + ca + cb + cd);
    }
  }

  /** Six consecutive triples of `out`, each the coordinates of the vertex
      that `c` names, make up the eighteen numbers from `base` on. */
  lemma SixTriples<F>(out: seq<F>, base: nat, vertices: seq<Point<F>>, c: seq<nat>)
    requires |c| == 6 && base + 18 <= |out|
    requires forall m :: 0 <= m < 6 ==> c[m] < |vertices| && out[base + 3 * m .. base + 3 * m + 3] == Coords(vertices[c[m]])
    ensures out[base .. base + 18] ==
      Coords(vertices[c[0]]) + Coords(vertices[c[1]]) + Coords(vertices[c[2]]) +
      Coords(vertices[c[3]]) + Coords(vertices[c[4]]) + Coords(vertices[c[5]])
  {
    assert out[base .. base + 3] == Coords(vertices[c[0]]);
    assert out[base + 3 .. base + 6] == Coords(vertices[c[1]]);
    assert out[base + 6 .. base + 9] == Coords(vertices[c[2]]);
    assert out[base + 9 .. base + 12] == Coords(vertices[c[3]]);
    assert out[base + 12 .. base + 15] == Coords(vertices[c[4]]);
    assert out[base + 15 .. base + 18] == Coords(vertices[c[5]]);
  }

  /** The block of six indices at `6 * k` of a looked-up stream becomes the
      eighteen coordinates at `18 * k` of its result. */
  lemma BlockOfStream<F>(vertices: seq<Point<F>>, idx: seq<nat>, out: seq<F>, k: nat, cell: seq<nat>)
    requires |cell| == 6 && 6 * k + 6 <= |idx| && idx[6 * k .. 6 * k + 6] == cell
    requires |out| == 3 * |idx| && AllBelow(idx, |vertices|)
    requires forall t :: 0 <= t < |idx| ==> out[3 * t .. 3 * t + 3] == Coords(vertices[idx[t]])
    ensures 18 * k + 18 <= |out|
    ensures forall m :: 0 <= m < 6 ==> cell[m] < |vertices|
    ensures out[18 * k .. 18 * k + 18] ==
      Coords(vertices[cell[0]]) + Coords(vertices[cell[1]]) + Coords(vertices[cell[2]]) +
      Coords(vertices[cell[3]]) + Coords(vertices[cell[4]]) + Coords(vertices[cell[5]])
  {
    forall m | 0 <= m < 6
      ensures cell[m] < |vertices| && out[18 * k + 3 * m .. 18 * k + 3 * m + 3] == Coords(vertices[cell[m]])
    {
      assert idx[6 * k + m] == cell[m];
      assert 18 * k + 3 * m == 3 * (6 * k + m);
    }
    SixTriples(out, 18 * k, vertices, cell);
  }

  /** Under any stride, if the cell loops succeed, cell `(i, j)` occupies the
      eighteen coordinates starting at `18 * TableIndex(i, j, cols)`, holding
      the triangles `(p1, p2 + 1, p2)` and `(p1, p1 + 1, p2 + 1)` with
      `p1 = TableIndex(i, j, row)` and `p2 = p1 + row`. */
  lemma {:induction false} CellBlock<F>(vertices: seq<Point<F>>, rows: nat, cols: nat, row: nat, i: nat, j: nat)
    requires Gather(vertices, GridIndices(rows, cols, row)).Success?
    requires i < rows && j < cols
    ensures var out := Gather(vertices, GridIndices(rows, cols, row)).value;
      var p1 := TableIndex(i, j, row);
      var p2 := p1 + row;
      var base := 18 * TableIndex(i, j, cols);
      base + 18 <= |out| && p2 + 1 < |vertices| &&
      out[base .. base + 18] == QuadCoords(vertices[p1], vertices[p1 + 1], vertices[p2], vertices[p2 + 1])
  {
    var idx := GridIndices(rows, cols, row);
    var out := Gather(vertices, idx).value;
    var k := TableIndex(i, j, cols);
    var p1 := TableIndex(i, j, row);
    var p2 := p1 + row;
    var cell := CellIndices(i, j, row);
    assert cell == [p1, p2 + 1, p2, p1, p1 + 1, p2 + 1];
    GridIndicesLayout(rows, cols, row);
    GatherSpec(vertices, idx);
    BlockOfStream(vertices, idx, out, k, cell);
  }

  /** The source's generator is the lookup of its index stream, stride `parallels + 1`. */
  lemma CreateSuperShapeIsGather<F>(sample: (nat, nat) -> Point<F>, meridians: int, parallels: int)
    ensures CreateSuperShape(sample, meridians, parallels) ==
      Gather(VertexTable(sample, meridians, parallels),
             GridIndices(ExclusiveCount(parallels), ExclusiveCount(meridians), ExclusiveCount(parallels) + 1))
  {
    TriangulationIsGather(VertexTable(sample, meridians, parallels),
      ExclusiveCount(parallels), ExclusiveCount(meridians), ExclusiveCount(parallels) + 1);
  }

  /** The corrected generator is the lookup of its index stream, stride `meridians + 1`. */
  lemma CreateSuperShapeByRowWidthIsGather<F>(sample: (nat, nat) -> Point<F>, meridians: int, parallels: int)
    ensures CreateSuperShapeByRowWidth(sample, meridians, parallels) ==
      Gather(VertexTable(sample, meridians, parallels),
             GridIndices(ExclusiveCount(parallels), ExclusiveCount(meridians), ExclusiveCount(meridians) + 1))
  {
    var vs, rows, cols := VertexTable(sample, meridians, parallels), ExclusiveCount(parallels), ExclusiveCount(meridians);
    assert CreateSuperShapeByRowWidth(sample, meridians, parallels) == CellGrid(vs, [], 0, rows, cols, cols + 1);
    TriangulationIsGather(vs, rows, cols, cols + 1);
  }

  lemma EmptyGrid(rows: nat, cols: nat, row: nat)
    requires rows == 0 || cols == 0
    ensures GridIndices(rows, cols, row) == []
  {
    MulIsProduct(rows, cols);
  }

  /** `createSuperShape` returns exactly when the grid is empty or
      `parallels <= meridians`; otherwise some `tri` call reaches past the
      vertex table and throws. */
  lemma CreateSuperShapeSucceedsIff<F>(sample: (nat, nat) -> Point<F>, meridians: int, parallels: int)
    ensures CreateSuperShape(sample, meridians, parallels).Success? <==>
      (parallels <= 0 || meridians <= 0 || parallels <= meridians)
  {
    var rows, cols := ExclusiveCount(parallels), ExclusiveCount(meridians);
    var vs := VertexTable(sample, meridians, parallels);
    CreateSuperShapeIsGather(sample, meridians, parallels);
    if parallels <= 0 || meridians <= 0 {
      EmptyGrid(rows, cols, rows + 1);
    } else {
      assert |vs| == (parallels + 1) * (meridians + 1) by {
        MulIsProduct(parallels + 1, meridians + 1);
      }
      SourceGatherSucceedsIff(vs, meridians, parallels);
    }
  }

  /** On a non-empty grid, the lookup of the source's index stream in a
      table of `(parallels + 1) * (meridians + 1)` entries succeeds exactly
      when `parallels <= meridians`. */
  lemma SourceGatherSucceedsIff<F>(vs: seq<Point<F>>, meridians: nat, parallels: nat)
    requires parallels > 0 && meridians > 0 && |vs| == (parallels + 1) * (meridians + 1)
    ensures Gather(vs, GridIndices(parallels, meridians, parallels + 1)).Success? <==> parallels <= meridians
  {
    GatherShape(vs, GridIndices(parallels, meridians, parallels + 1));
    SourceStrideInRangeIff(meridians, parallels);
  }


  /** A grid with no cells (either bound zero or negative) yields an empty stream. */
  lemma CreateSuperShapeEmpty<F>(sample: (nat, nat) -> Point<F>, meridians: int, parallels: int)
    requires parallels <= 0 || meridians <= 0
    ensures CreateSuperShape(sample, meridians, parallels) == Success([])
  {
    CreateSuperShapeIsGather(sample, meridians, parallels);
    EmptyGrid(ExclusiveCount(parallels), ExclusiveCount(meridians), ExclusiveCount(parallels) + 1);
  }

  /** A returned stream holds two triangles of three vertices of three
      coordinates per cell: `18 * parallels * meridians` numbers. */
  lemma {:induction false} CreateSuperShapeLength<F>(sample: (nat, nat) -> Point<F>, meridians: int, parallels: int)
    requires CreateSuperShape(sample, meridians, parallels).Success?
    ensures |CreateSuperShape(sample, meridians, parallels).value| == 18 * (ExclusiveCount(parallels) * ExclusiveCount(meridians))
  {
    var rows, cols := ExclusiveCount(parallels), ExclusiveCount(meridians);
    CreateSuperShapeIsGather(sample, meridians, parallels);
    GatherShape(VertexTable(sample, meridians, parallels), GridIndices(rows, cols, rows + 1));
    GridIndicesLength(rows, cols, rows + 1);
  }

  /** Cell `(i, j)` of a returned stream, under the source's stride
      `parallels + 1`: corners `p1 = i * (parallels + 1) + j`, `p1 + 1`,
      `p2 = p1 + parallels + 1`, `p2 + 1`, emitted as `(p1, p2 + 1, p2)` then
      `(p1, p1 + 1, p2 + 1)`, at position `18 * (i * meridians + j)`. */
  lemma CreateSuperShapeCell<F>(sample: (nat, nat) -> Point<F>, meridians: nat, parallels: nat, i: nat, j: nat)
    requires CreateSuperShape(sample, meridians, parallels).Success?
    requires i < parallels && j < meridians
    ensures var out := CreateSuperShape(sample, meridians, parallels).value;
      var vs := VertexTable(sample, meridians, parallels);
      var p1 := i * (parallels + 1) + j;
      var p2 := p1 + (parallels + 1);
      var base := 18 * (i * meridians + j);
      base + 18 <= |out| && p2 + 1 < |vs| &&
      out[base .. base + 18] == QuadCoords(vs[p1], vs[p1 + 1], vs[p2], vs[p2 + 1])
  {
    var vs := VertexTable(sample, meridians, parallels);
    CreateSuperShapeIsGather(sample, meridians, parallels);
    var out := CreateSuperShape(sample, meridians, parallels).value;
    assert out == Gather(vs, GridIndices(parallels, meridians, parallels + 1)).value;
    CellPositions(i, j, parallels, meridians);
    var p1, base := i * (parallels + 1) + j, 18 * (i * meridians + j);
    SourceGatherCell(vs, meridians, parallels, i, j, p1, base);
  }

  /** The corner `p1` and the block position of cell `(i, j)`, as products. */
  lemma CellPositions(i: nat, j: nat, parallels: nat, meridians: nat)
    ensures TableIndex(i, j, parallels + 1) == i * (parallels + 1) + j
    ensures 18 * TableIndex(i, j, meridians) == 18 * (i * meridians + j)
  {
    MulIsProduct(i, parallels + 1);
    MulIsProduct(i, meridians);
  }

  /** `CellBlock` for the source's stride, with the corner and the block position named. */
  lemma SourceGatherCell<F>(vs: seq<Point<F>>, meridians: nat, parallels: nat, i: nat, j: nat, p1: nat, base: nat)
    requires Gather(vs, GridIndices(parallels, meridians, parallels + 1)).Success?
    requires i < parallels && j < meridians
    requires p1 == TableIndex(i, j, parallels + 1) && base == 18 * TableIndex(i, j, meridians)
    ensures var out := Gather(vs, GridIndices(parallels, meridians, parallels + 1)).value;
      base + 18 <= |out| && p1 + (parallels + 1) + 1 < |vs| &&
      out[base .. base + 18] == QuadCoords(vs[p1], vs[p1 + 1], vs[p1 + (parallels + 1)], vs[p1 + (parallels + 1) + 1])
  {
    CellBlock(vs, parallels, meridians, parallels + 1, i, j);
  }

  /** On a square grid (the default call uses 70 by 70) the source's stride is
      the real row width, every call returns, and cell `(i, j)` is made of the
      samples `(i, j)`, `(i, j + 1)`, `(i + 1, j)` and `(i + 1, j + 1)`. */
  lemma {:induction false} SquareGridCell<F>(sample: (nat, nat) -> Point<F>, n: nat, i: nat, j: nat)
    requires i < n && j < n
    ensures CreateSuperShape(sample, n, n).Success?
    ensures var out := CreateSuperShape(sample, n, n).value;
      var base := 18 * (i * n + j);
      base + 18 <= |out| &&
      out[base .. base + 18] == QuadCoords(sample(i, j), sample(i, j + 1), sample(i + 1, j), sample(i + 1, j + 1))
  {
    RowWidthStrideCell(sample, n, n, i, j);
    assert CreateSuperShape(sample, n, n) == CreateSuperShapeByRowWidth(sample, n, n);
  }

  /** The corrected generator returns for every grid size, with the same
      length as the source's. */
  lemma {:induction false} CreateSuperShapeByRowWidthSucceeds<F>(sample: (nat, nat) -> Point<F>, meridians: int, parallels: int)
    ensures CreateSuperShapeByRowWidth(sample, meridians, parallels).Success?
    ensures |CreateSuperShapeByRowWidth(sample, meridians, parallels).value| == 18 * (ExclusiveCount(parallels) * ExclusiveCount(meridians))
  {
    var rows, cols := ExclusiveCount(parallels), ExclusiveCount(meridians);
    var vs := VertexTable(sample, meridians, parallels);
    var idx := GridIndices(rows, cols, cols + 1);
    CreateSuperShapeByRowWidthIsGather(sample, meridians, parallels);
    GatherShape(vs, idx);
    GridIndicesLength(rows, cols, cols + 1);
    if parallels <= 0 || meridians <= 0 {
      EmptyGrid(rows, cols, cols + 1);
    } else {
      assert |vs| == (parallels + 1) * (meridians + 1) by {
        MulIsProduct(parallels + 1, meridians + 1);
      }
      RowWidthStrideInRange(meridians, parallels);
    }
  }

  /** With stride `meridians + 1`, the four corners of cell `(i, j)` are the
      samples at `(i, j)`, `(i, j + 1)`, `(i + 1, j)` and `(i + 1, j + 1)`. */
  lemma RowWidthCorners<F>(sample: (nat, nat) -> Point<F>, meridians: nat, parallels: nat, i: nat, j: nat)
    requires i < parallels && j < meridians
    ensures var vs := VertexTable(sample, meridians, parallels);
      var p1 := TableIndex(i, j, meridians + 1);
      p1 + (meridians + 1) + 1 < |vs| && vs[p1] == sample(i, j) && vs[p1 + 1] == sample(i, j + 1) &&
      vs[p1 + (meridians + 1)] == sample(i + 1, j) && vs[p1 + (meridians + 1) + 1] == sample(i + 1, j + 1)
  {
    var p1 := TableIndex(i, j, meridians + 1);
    assert TableIndex(i, j + 1, meridians + 1) == p1 + 1;
    assert TableIndex(i + 1, j, meridians + 1) == p1 + (meridians + 1);
    assert TableIndex(i + 1, j + 1, meridians + 1) == p1 + (meridians + 1) + 1;
    VertexTableAt(sample, meridians, parallels, i, j);
    VertexTableAt(sample, meridians, parallels, i, j + 1);
    VertexTableAt(sample, meridians, parallels, i + 1, j);
    VertexTableAt(sample, meridians, parallels, i + 1, j + 1);
  }

  /** Under any stride, a returned cell whose four table corners are known
      is made of those four points. */
  lemma CellOfCorners<F>(vertices: seq<Point<F>>, rows: nat, cols: nat, row: nat, i: nat, j: nat, p1: nat,
                         a: Point<F>, b: Point<F>, c: Point<F>, d: Point<F>)
    requires Gather(vertices, GridIndices(rows, cols, row)).Success?
    requires i < rows && j < cols && p1 == TableIndex(i, j, row)
    requires p1 + row + 1 < |vertices|
    requires vertices[p1] == a && vertices[p1 + 1] == b && vertices[p1 + row] == c && vertices[p1 + row + 1] == d
    ensures var out := Gather(vertices, GridIndices(rows, cols, row)).value;
      var base := 18 * TableIndex(i, j, cols);
      base + 18 <= |out| && out[base .. base + 18] == QuadCoords(a, b, c, d)
  {
    CellBlock(vertices, rows, cols, row, i, j);
  }

  /** The row-width lookup places the four neighbouring samples in cell `(i, j)`. */
  lemma RowWidthGatherCell<F>(sample: (nat, nat) -> Point<F>, meridians: nat, parallels: nat, i: nat, j: nat)
    requires i < parallels && j < meridians
    requires Gather(VertexTable(sample, meridians, parallels), GridIndices(parallels, meridians, meridians + 1)).Success?
    ensures var out := Gather(VertexTable(sample, meridians, parallels), GridIndices(parallels, meridians, meridians + 1)).value;
      var base := 18 * TableIndex(i, j, meridians);
      base + 18 <= |out| &&
      out[base .. base + 18] == QuadCoords(sample(i, j), sample(i, j + 1), sample(i + 1, j), sample(i + 1, j + 1))
  {
    var vs := VertexTable(sample, meridians, parallels);
    RowWidthCorners(sample, meridians, parallels, i, j);
    CellOfCorners(vs, parallels, meridians, meridians + 1, i, j, TableIndex(i, j, meridians + 1),
                  sample(i, j), sample(i, j + 1), sample(i + 1, j), sample(i + 1, j + 1));
  }

  /** With stride `meridians + 1`, cell `(i, j)` is made of the samples
      `(i, j)`, `(i, j + 1)`, `(i + 1, j)`, `(i + 1, j + 1)` for every grid size. */
  lemma {:induction false} RowWidthStrideCell<F>(sample: (nat, nat) -> Point<F>, meridians: nat, parallels: nat, i: nat, j: nat)
    requires i < parallels && j < meridians
    ensures CreateSuperShapeByRowWidth(sample, meridians, parallels).Success?
    ensures var out := CreateSuperShapeByRowWidth(sample, meridians, parallels).value;
      var base := 18 * (i * meridians + j);
      base + 18 <= |out| &&
      out[base .. base + 18] == QuadCoords(sample(i, j), sample(i, j + 1), sample(i + 1, j), sample(i + 1, j + 1))
  {
    CreateSuperShapeByRowWidthSucceeds(sample, meridians, parallels);
    CreateSuperShapeByRowWidthIsGather(sample, meridians, parallels);
    RowWidthGatherCell(sample, meridians, parallels, i, j);
    MulIsProduct(i, meridians);
  }

  // ---------------------------------------------------------------------
  // The stride `parallels + 1` against the row width `meridians + 1`.
  // ---------------------------------------------------------------------

  /** A sample that records its own grid position. */
  function GridPoint(i: nat, j: nat): Point<int>
  {
    Point(i, j, 0)
  }

  /** The index stream of one column and two rows under stride 3. */
  lemma TwoByOneStream()
    ensures GridIndices(2, 1, 3) == [0, 4, 3, 0, 1, 4, 3, 7, 6, 3, 4, 7]
  {
    assert CellIndices(0, 0, 3) == [0, 4, 3, 0, 1, 4];
    assert CellIndices(1, 0, 3) == [3, 7, 6, 3, 4, 7];
    assert RowCells(0, 0, 1, 3) == [0, 4, 3, 0, 1, 4];
    assert RowCells(1, 0, 1, 3) == [3, 7, 6, 3, 4, 7];
  }

  /** In that stream, index 7 is the first one past a six-entry table. */
  lemma TwoByOneFirstOverrun(idx: seq<nat>)
    requires idx == [0, 4, 3, 0, 1, 4, 3, 7, 6, 3, 4, 7]
    ensures 7 < |idx| && idx[7] == 7 && AllBelow(idx[..7], 6)
  {
    assert idx[..7] == [0, 4, 3, 0, 1, 4, 3];
  }

  /** The source's generator with one meridian and two parallels looks up
      that stream in a six-entry table. */
  lemma TwoByOneIsGather<F>(sample: (nat, nat) -> Point<F>, meridians: int, parallels: int)
    requires meridians == 1 && parallels == 2
    ensures |VertexTable(sample, meridians, parallels)| == 6
    ensures CreateSuperShape(sample, meridians, parallels) ==
      Gather(VertexTable(sample, meridians, parallels), [0, 4, 3, 0, 1, 4, 3, 7, 6, 3, 4, 7])
  {
    VertexTableLayout(sample, meridians, parallels);
    TwoByOneStream();
    CreateSuperShapeIsGather(sample, meridians, parallels);
  }

  /** With one meridian and two parallels the second row of cells reaches
      vertex 7 of a six-entry table: the call throws there. */
  lemma SourceStrideOverrun<F>(sample: (nat, nat) -> Point<F>, meridians: int, parallels: int)
    requires meridians == 1 && parallels == 2
    ensures CreateSuperShape(sample, meridians, parallels) == Failure(UndefinedVertex(7))
  {
    var idx: seq<nat> := [0, 4, 3, 0, 1, 4, 3, 7, 6, 3, 4, 7];
    TwoByOneIsGather(sample, meridians, parallels);
    TwoByOneFirstOverrun(idx);
    GatherFirstMissing(VertexTable(sample, meridians, parallels), idx, 7);
  }

  /** With two meridians and one parallel the source's generator returns,
      but cell `(0, 0)` takes its corner `d` from table entry 3, which is the
      sample `(1, 0)`. */
  lemma SourceStrideCornerD(meridians: int, parallels: int)
    requires meridians == 2 && parallels == 1
    ensures CreateSuperShape(GridPoint, meridians, parallels).Success?
    ensures |CreateSuperShape(GridPoint, meridians, parallels).value| >= 6 &&
      CreateSuperShape(GridPoint, meridians, parallels).value[3 .. 6] == [1, 0, 0]
  {
    CreateSuperShapeSucceedsIff(GridPoint, meridians, parallels);
    CreateSuperShapeCell(GridPoint, meridians, parallels, 0, 0);
    VertexTableAt(GridPoint, meridians, parallels, 1, 0);
    assert TableIndex(1, 0, meridians + 1) == 3;
    var out := CreateSuperShape(GridPoint, meridians, parallels).value;
    assert out[3 .. 6] == out[0 .. 18][3 .. 6];
  }

  /** On every non-empty grid the row-width stride puts the diagonal
      neighbour, sample `(1, 1)`, in that place. */
  lemma RowWidthStrideCornerD<F>(sample: (nat, nat) -> Point<F>, meridians: nat, parallels: nat)
    requires meridians >= 1 && parallels >= 1
    ensures CreateSuperShapeByRowWidth(sample, meridians, parallels).Success?
    ensures |CreateSuperShapeByRowWidth(sample, meridians, parallels).value| >= 6 &&
      CreateSuperShapeByRowWidth(sample, meridians, parallels).value[3 .. 6] == Coords(sample(1, 1))
  {
    RowWidthStrideCell(sample, meridians, parallels, 0, 0);
    var fixed := CreateSuperShapeByRowWidth(sample, meridians, parallels).value;
    assert fixed[3 .. 6] == fixed[0 .. 18][3 .. 6];
  }

  /** With two meridians and one parallel every call returns, but the two
      strides build different meshes: cell `(0, 0)` of the source's stream
      takes the sample `(1, 0)` where the row-width stride takes `(1, 1)`. */
  lemma SourceStrideMisplacesCorner(meridians: int, parallels: int)
    requires meridians == 2 && parallels == 1
    ensures CreateSuperShape(GridPoint, meridians, parallels).Success?
    ensures CreateSuperShape(GridPoint, meridians, parallels) != CreateSuperShapeByRowWidth(GridPoint, meridians, parallels)
  {
    SourceStrideCornerD(meridians, parallels);
    RowWidthStrideCornerD(GridPoint, meridians, parallels);
  }
}
