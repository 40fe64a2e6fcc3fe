/** `createSuperShape`: the vertex table, the `tri`/`quad` helpers and the two
    cell loops that turn the grid into a flat, non-indexed triangle stream of
    three coordinates per vertex. */
module Mesh {
  import opened Wrappers
  import opened Vertices
  import opened MeshIndices

  /** What `createSuperShape` throws: `tri` spreads `vertices[k]` for an index
      `k` past the end of the table; that entry is `undefined`, which is not
      iterable. */
  datatype MeshError = UndefinedVertex(index: nat)

  /** The three coordinates a vertex contributes to `points`. */
  function Coords<F>(p: Point<F>): seq<F>
  {
    [p.x, p.y, p.z]
  }

  /** `s` with `points` in front of it, when `r` succeeded. */
  function Prefixed<F>(points: seq<F>, r: Result<seq<F>, MeshError>): Result<seq<F>, MeshError>
  {
    match r
    case Success(s) => Success(points + s)
    case Failure(e) => Failure(e)
  }

  /** `tri(a, b, c)`: all three spread arguments are evaluated, in order,
      before `points.push` runs, so either nine coordinates are appended or
      nothing is and the call throws. */
  function Tri<F>(vertices: seq<Point<F>>, points: seq<F>, a: nat, b: nat, c: nat): Result<seq<F>, MeshError>
  {
    if a >= |vertices| then Failure(UndefinedVertex(a))
    else if b >= |vertices| then Failure(UndefinedVertex(b))
    else if c >= |vertices| then Failure(UndefinedVertex(c))
    else Success(points + Coords(vertices[a]) + Coords(vertices[b]) + Coords(vertices[c]))
  }

  /** `quad(a, b, c, d)`: `tri(a, d, c)` and then `tri(a, b, d)`. */
  function Quad<F>(vertices: seq<Point<F>>, points: seq<F>, a: nat, b: nat, c: nat, d: nat): Result<seq<F>, MeshError>
  {
    match Tri(vertices, points, a, d, c)
    case Failure(e) => Failure(e)
    case Success(p) => Tri(vertices, p, a, b, d)
  }

  /** The inner cell loop of row `i`, from column `j` while `j < cols`:
      `p1 = i * row + j`, `p2 = p1 + row`, `quad(p1, p1 + 1, p2, p2 + 1)`. */
  function CellRow<F>(vertices: seq<Point<F>>, points: seq<F>, i: nat, j: nat, cols: nat, row: nat): Result<seq<F>, MeshError>
    requires j <= cols
    decreases cols - j
  {
    if j == cols then Success(points)
    else
      var p1 := TableIndex(i, j, row);
      var p2 := p1 + row;
      match Quad(vertices, points, p1, p1 + 1, p2, p2 + 1)
      case Failure(e) => Failure(e)
      case Success(p) => CellRow(vertices, p, i, j + 1, cols, row)
  }

  /** The outer cell loop, from row `i` while `i < rows`. */
  function CellGrid<F>(vertices: seq<Point<F>>, points: seq<F>, i: nat, rows: nat, cols: nat, row: nat): Result<seq<F>, MeshError>
    requires i <= rows
    decreases rows - i
  {
    if i == rows then Success(points)
    else
      match CellRow(vertices, points, i, 0, cols, row)
      case Failure(e) => Failure(e)
      case Success(p) => CellGrid(vertices, p, i + 1, rows, cols, row)
  }

  /** `createSuperShape(meridians, parallels)` with the superformula samples
      abstracted as `sample`. The cell stride is `row = parallels + 1`, as in
      the source, although the table's rows hold `meridians + 1` samples. A
      negative bound makes its loops run zero times. */
  function CreateSuperShape<F>(sample: (nat, nat) -> Point<F>, meridians: int, parallels: int): Result<seq<F>, MeshError>
  {
    var vertices := VertexTable(sample, meridians, parallels);
    var rows := ExclusiveCount(parallels);
    CellGrid(vertices, [], 0, rows, ExclusiveCount(meridians), rows + 1)
  }

  /** The same generator with the stride set to the table's real row width,
      `meridians + 1`. */
  function CreateSuperShapeByRowWidth<F>(sample: (nat, nat) -> Point<F>, meridians: int, parallels: int): Result<seq<F>, MeshError>
  {
    var vertices := VertexTable(sample, meridians, parallels);
    var cols := ExclusiveCount(meridians);
    CellGrid(vertices, [], 0, ExclusiveCount(parallels), cols, cols + 1)
  }

  // ---------------------------------------------------------------------
  // Reference: looking an index stream up in the table, one vertex at a time.
  // ---------------------------------------------------------------------

  /** The coordinates of `vertices[idx[0]]`, `vertices[idx[1]]`, ... in order;
      fails at the first index that is past the table. */
  function Gather<F>(vertices: seq<Point<F>>, idx: seq<nat>): Result<seq<F>, MeshError>
  {
    if |idx| == 0 then Success([])
    else if idx[0] >= |vertices| then Failure(UndefinedVertex(idx[0]))
    else Prefixed(Coords(vertices[idx[0]]), Gather(vertices, idx[1..]))
  }

  /** A lookup succeeds exactly when every index is inside the table, and
      then holds three coordinates per index. */
  lemma {:induction false} GatherShape<F>(vertices: seq<Point<F>>, idx: seq<nat>)
    ensures Gather(vertices, idx).Success? <==> AllBelow(idx, |vertices|)
    ensures Gather(vertices, idx).Success? ==> |Gather(vertices, idx).value| == 3 * |idx|
  {
    if |idx| > 0 {
      GatherShape(vertices, idx[1..]);
      assert forall k :: 0 < k < |idx| ==> idx[k] == idx[1..][k - 1];
    }
  }

  /** The `k`-th triple of a successful lookup is the coordinates of
      `vertices[idx[k]]`. */
  lemma {:induction false} GatherTriple<F>(vertices: seq<Point<F>>, idx: seq<nat>, k: nat)
    requires Gather(vertices, idx).Success? && k < |idx|
    ensures idx[k] < |vertices|
    ensures 3 * k + 3 <= |Gather(vertices, idx).value|
    ensures Gather(vertices, idx).value[3 * k .. 3 * k + 3] == Coords(vertices[idx[k]])
  {
    GatherShape(vertices, idx);
    var head := Coords(vertices[idx[0]]);
    var s := Gather(vertices, idx[1..]).value;
    assert Gather(vertices, idx).value == head + s;
    if k == 0 {
      assert (head + s)[0 .. 3] == head;
    } else {
      GatherTriple(vertices, idx[1..], k - 1);
      SliceOfSuffix(head, s, 3 * (k - 1), 3 * (k - 1) + 3);
    }
  }

  /** A failing lookup names an index past the table, and every index before
      it is inside. */
  lemma {:induction false} GatherFailure<F>(vertices: seq<Point<F>>, idx: seq<nat>)
    requires Gather(vertices, idx).Failure?
    ensures exists k :: (0 <= k < |idx| && idx[k] == Gather(vertices, idx).error.index &&
      idx[k] >= |vertices| && AllBelow(idx[..k], |vertices|))
  {
    if idx[0] >= |vertices| {
      assert AllBelow(idx[..0], |vertices|);
    } else {
      var tail := idx[1..];
      GatherFailure(vertices, tail);
      var e := Gather(vertices, tail).error;
      var k :| 0 <= k < |tail| && tail[k] == e.index && tail[k] >= |vertices| && AllBelow(tail[..k], |vertices|);
      assert idx[..k + 1] == [idx[0]] + tail[..k];
      assert idx[k + 1] == e.index;
    }
  }

  /** A lookup succeeds exactly when every index is inside the table; it then
      holds three coordinates per index, the `k`-th triple being those of
      `vertices[idx[k]]`. A failure names the first index past the table. */
  lemma GatherSpec<F>(vertices: seq<Point<F>>, idx: seq<nat>)
    ensures Gather(vertices, idx).Success? <==> AllBelow(idx, |vertices|)
    ensures Gather(vertices, idx).Success? ==> |Gather(vertices, idx).value| == 3 * |idx|
    ensures Gather(vertices, idx).Success? ==> forall k :: 0 <= k < |idx| ==>
      Gather(vertices, idx).value[3 * k .. 3 * k + 3] == Coords(vertices[idx[k]])
    ensures Gather(vertices, idx).Failure? ==>
      (exists k :: 0 <= k < |idx| && idx[k] == Gather(vertices, idx).error.index && idx[k] >= |vertices| && AllBelow(idx[..k], |vertices|))
  {
    GatherShape(vertices, idx);
    if Gather(vertices, idx).Success? {
      forall k | 0 <= k < |idx|
        ensures Gather(vertices, idx).value[3 * k .. 3 * k + 3] == Coords(vertices[idx[k]])
      {
        GatherTriple(vertices, idx, k);
      }
    } else {
      GatherFailure(vertices, idx);
    }
  }

  /** Conversely, a lookup whose first index past the table is `idx[k]`
      fails naming exactly that index. */
  lemma {:induction false} GatherFirstMissing<F>(vertices: seq<Point<F>>, idx: seq<nat>, k: nat)
    requires k < |idx| && idx[k] >= |vertices| && AllBelow(idx[..k], |vertices|)
    ensures Gather(vertices, idx) == Failure(UndefinedVertex(idx[k]))
  {
    if k > 0 {
      assert idx[0] == idx[..k][0];
      assert idx[1..][..k - 1] == idx[..k][1..];
      GatherFirstMissing(vertices, idx[1..], k - 1);
    }
  }

  lemma PrefixedTwice<F>(a: seq<F>, b: seq<F>, r: Result<seq<F>, MeshError>)
    ensures Prefixed(a, Prefixed(b, r)) == Prefixed(a + b, r)
  {
    match r
    case Failure(_) =>
    case Success(t) => assert a + (b + t) == (a + b) + t;
  }

  /** Looking up `x + y` is looking up `x` and then, from where that left
      off, `y`. */
  lemma {:induction false} GatherAppend<F>(vertices: seq<Point<F>>, x: seq<nat>, y: seq<nat>)
    ensures Gather(vertices, x + y) ==
      match Gather(vertices, x)
      case Failure(e) => Failure(e)
      case Success(s) => Prefixed(s, Gather(vertices, y))
  {
    if |x| > 0 {
      assert (x + y)[0] == x[0];
      assert (x + y)[1..] == x[1..] + y;
      GatherAppend(vertices, x[1..], y);
      if x[0] < |vertices| {
        var head := Coords(vertices[x[0]]);
        match Gather(vertices, x[1..])
        case Failure(_) =>
        case Success(s) => PrefixedTwice(head, s, Gather(vertices, y));
      }
    } else {
      assert x + y == y;
      match Gather(vertices, y)
      case Failure(_) =>
      case Success(t) => assert [] + t == t;
    }
  }

  lemma GatherOne<F>(vertices: seq<Point<F>>, a: nat)
    ensures Gather(vertices, [a]) == if a < |vertices| then Success(Coords(vertices[a])) else Failure(UndefinedVertex(a))
  {
    assert [a][1..] == [];
    if a < |vertices| {
      assert Coords(vertices[a]) + [] == Coords(vertices[a]);
    }
  }

  lemma TriIsGather<F>(vertices: seq<Point<F>>, points: seq<F>, a: nat, b: nat, c: nat)
    ensures Tri(vertices, points, a, b, c) == Prefixed(points, Gather(vertices, [a, b, c]))
  {
    assert [a, b, c] == [a] + ([b] + [c]);
    GatherAppend(vertices, [a], [b] + [c]);
    GatherAppend(vertices, [b], [c]);
    GatherOne(vertices, a);
    GatherOne(vertices, b);
    GatherOne(vertices, c);
    if a < |vertices| && b < |vertices| && c < |vertices| {
      var ca, cb, cc := Coords(vertices[a]), Coords(vertices[b]), Coords(vertices[c]);
      assert points + ca + cb + cc == points + (ca + (cb + cc));
    }
  }

  lemma QuadIsGather<F>(vertices: seq<Point<F>>, points: seq<F>, a: nat, b: nat, c: nat, d: nat)
    ensures Quad(vertices, points, a, b, c, d) == Prefixed(points, Gather(vertices, QuadOrder(a, b, c, d)))
  {
    assert QuadOrder(a, b, c, d) == [a, d, c] + [a, b, d];
    GatherAppend(vertices, [a, d, c], [a, b, d]);
    TriIsGather(vertices, points, a, d, c);
    match Tri(vertices, points, a, d, c)
    case Failure(e) =>
    case Success(p) =>
      TriIsGather(vertices, p, a, b, d);
      match Gather(vertices, [a, b, d])
      case Failure(_) =>
      case Success(t) =>
        var s := Gather(vertices, [a, d, c]).value;
        assert p == points + s;
        assert p + t == points + (s + t);
  }

  /** The inner cell loop emits exactly the lookups of its index stream. */
  lemma {:induction false} CellRowIsGather<F>(vertices: seq<Point<F>>, points: seq<F>, i: nat, j: nat, cols: nat, row: nat)
    requires j <= cols
    ensures CellRow(vertices, points, i, j, cols, row) == Prefixed(points, Gather(vertices, RowCells(i, j, cols, row)))
    decreases cols - j
  {
    if j < cols {
      var p1 := TableIndex(i, j, row);
      var p2 := p1 + row;
      var cell := QuadOrder(p1, p1 + 1, p2, p2 + 1);
      assert cell == CellIndices(i, j, row);
      QuadIsGather(vertices, points, p1, p1 + 1, p2, p2 + 1);
      GatherAppend(vertices, cell, RowCells(i, j + 1, cols, row));
      match Quad(vertices, points, p1, p1 + 1, p2, p2 + 1)
      case Failure(e) =>
      case Success(p) =>
        CellRowIsGather(vertices, p, i, j + 1, cols, row);
        PrefixedTwice(points, Gather(vertices, cell).value, Gather(vertices, RowCells(i, j + 1, cols, row)));
    } else {
      assert RowCells(i, j, cols, row) == [];
      assert points + [] == points;
    }
  }

  /** The outer cell loop emits exactly the lookups of its index stream. */
  lemma {:induction false} CellGridIsGather<F>(vertices: seq<Point<F>>, points: seq<F>, i: nat, rows: nat, cols: nat, row: nat)
    requires i <= rows
    ensures CellGrid(vertices, points, i, rows, cols, row) == Prefixed(points, Gather(vertices, GridFrom(i, rows, cols, row)))
    decreases rows - i
  {
    if i < rows {
      var first := RowCells(i, 0, cols, row);
      CellRowIsGather(vertices, points, i, 0, cols, row);
      GatherAppend(vertices, first, GridFrom(i + 1, rows, cols, row));
      match CellRow(vertices, points, i, 0, cols, row)
      case Failure(e) =>
      case Success(p) =>
        CellGridIsGather(vertices, p, i + 1, rows, cols, row);
        PrefixedTwice(points, Gather(vertices, first).value, Gather(vertices, GridFrom(i + 1, rows, cols, row)));
    } else {
      assert points + [] == points;
    }
  }

  /** The two cell loops, started from an empty `points`, produce the
      lookups of the grid's index stream under the given stride. */
  lemma TriangulationIsGather<F>(vertices: seq<Point<F>>, rows: nat, cols: nat, row: nat)
    ensures CellGrid(vertices, [], 0, rows, cols, row) == Gather(vertices, GridIndices(rows, cols, row))
  {
    CellGridIsGather(vertices, [], 0, rows, cols, row);
    match Gather(vertices, GridIndices(rows, cols, row))
    case Failure(_) =>
    case Success(s) => assert [] + s == s;
  }
}
