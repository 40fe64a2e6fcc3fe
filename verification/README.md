# Blinn-Phong supershape demo — a Dafny model of its core

`index.js` draws one lit "supershape" with WebGL. This project models the
part of it that carries logic, leaving the floating-point and device parts
aside:

- **`createSuperShape(meridians, parallels)`** (modules `Vertices`,
  `MeshIndices`, `Mesh`, `SuperShape`). It builds a row-major vertex table
  of `(parallels + 1) * (meridians + 1)` samples. Two cell loops then hand
  the corners `p1 = i * row + j`, `p1 + 1`, `p2 = p1 + row` and `p2 + 1` to
  `quad`, which emits the triangles `(a, d, c)` and `(a, b, d)` into a flat
  stream of three numbers per vertex.
  - The superformula samples are an opaque function `sample(i, j)`.
  - `tri` spreads `vertices[k]`. An index past the table yields `undefined`
    and throws, which is modelled as `Failure(UndefinedVertex(k))` for the
    first such index in evaluation order.
  - The stride is `row = parallels + 1`, exactly as written. A second
    generator with stride `meridians + 1` sits alongside it (see
    "## Findings").
  - The loop structure is proved equal to a reference definition, `Gather`:
    looking up a single index stream in the table, one vertex at a time.
- **`count = sphere.length / 3`** and the one-off uniform settings of the
  page (module `Scene`).
- **`getAndSetUniform`** (module `Uniforms`). It makes one location lookup
  and then exactly one upload, chosen by `!data.length`, then length 3,
  then length 4, and otherwise the matrix call.
- **`createShader` / `createProgram` / `createProgramFromString`** (module
  `ShaderProgram`).
  - Each is modelled as a trace of context calls plus a result or the
    thrown error.
  - The context is an oracle `Device` that answers compile and link status
    and supplies the info logs.
  - A reference state machine over the shader and program objects (`Step`,
    `Replay`) checks that every call is made in a legal order.

Two behaviours of the code a caller may not expect; the model follows the
code:

- **Negative grid parameters.** They are not rejected: the loops run zero
  times, and the result is an empty stream (`CreateSuperShapeEmpty`).
- **One-element arrays.** They are not uploaded as scalars. `!data.length`
  is false for length 1 and 2, so both go to `uniformMatrix4fv`
  (`ShortArraysTakeMatrixPath`).

A link failure's message carries only the program info log, not the shader
sources.

## Model

| member | source | states |
|---|---|---|
| Vertices.RowsEntry | index.js:89-102 | rows pushed one after another hold sample `(i, j)` at `i * width + j`: an earlier row in the prefix, the last row right after it |
| Vertices.RowsEntries | index.js:89-102 | rows pushed one after another hold sample `(i, j)` at `i * width + j`, for every `i`, `j` in range |
| Vertices.VertexTable | index.js:89-102 | the table has `(parallels + 1) * (meridians + 1)` entries (zero when either bound is negative) |
| Vertices.VertexTableLayout | index.js:89-102 | the table has `(parallels + 1) * (meridians + 1)` entries and entry `i * (meridians + 1) + j` is the sample for `(i, j)` for all `i <= parallels`, `j <= meridians` |
| Vertices.VertexTableAt | index.js:94-101 | one entry: row `i`, column `j` of the table is `sample(i, j)` |
| Vertices.VertexTableEntry | index.js:89-102 | conversely, every entry `k` is the sample at row `k / (meridians + 1)`, column `k % (meridians + 1)` |
| Vertices.VertexTableEmpty | index.js:89-94 | a negative bound leaves the vertex table empty |
| MeshIndices.RowCells | index.js:116-120 | the inner loop's index stream has six indices per column, and the block of column `c` is that cell's `quad` order |
| MeshIndices.GridFromCell | index.js:115-121 | row-major visiting, one cell at a time: cell `(r, c)` of the outer loop started at row `i` is block `(r - i) * cols + c` of its stream |
| MeshIndices.GridFromLayout | index.js:115-121 | row-major visiting: the block of cell `(i + d, c)` sits at `6 * (d * cols + c)` of the outer loop's stream |
| MeshIndices.GridIndicesLength | index.js:115-120 | the cell loops produce six indices, two triangles, for each of the `rows * cols` cells, whatever the stride |
| MeshIndices.GridIndicesLayout | index.js:113-121 | the whole index stream has `6 * rows * cols` indices, cell `(i, j)` at block `i * cols + j`, for any stride |
| MeshIndices.CellMax | index.js:117-119 | the largest corner a cell uses is `p2 + 1`, and it is used |
| MeshIndices.GridIndicesMax | index.js:113-119 | on a non-empty grid, every index is below `n` if and only if the last cell's `p2 + 1` is below `n` |
| MeshIndices.SourceStrideInRangeIff | index.js:113-119 | with stride `parallels + 1`, all corners fall inside the `(parallels + 1) * (meridians + 1)` table if and only if `parallels == 0`, `meridians == 0` or `parallels <= meridians` |
| MeshIndices.RowWidthStrideInRange | index.js:113-119 | with stride `meridians + 1`, all corners fall inside the table for every grid size |
| Mesh.GatherSpec | index.js:105-107 | the reference lookup succeeds if and only if every index is inside the table; it then holds triple `k` = coordinates of `vertices[idx[k]]`; a failure names the first index past the table |
| Mesh.GatherShape | index.js:105-107 | the lookup succeeds exactly when every index is inside the table, and then yields three numbers per index |
| Mesh.GatherTriple | index.js:105-107 | triple `k` of a successful lookup is the coordinates of `vertices[idx[k]]` |
| Mesh.GatherFailure | index.js:105-107 | a failing lookup names an index past the table, and every index before it is inside |
| Mesh.GatherFirstMissing | index.js:105-107 | conversely, when `idx[k]` is the first index past the table, the lookup fails naming exactly `idx[k]` |
| Mesh.GatherAppend | index.js:105-111 | looking up two streams one after the other is looking up their concatenation |
| Mesh.TriIsGather | index.js:105-107 | `tri(a, b, c)` appends the lookups of `[a, b, c]`, or throws at the first missing one without appending |
| Mesh.QuadIsGather | index.js:108-111 | `quad(a, b, c, d)` is the lookup of `a, d, c, a, b, d` |
| Mesh.CellRowIsGather | index.js:116-120 | the inner loop is the lookup of its row's index stream, stopping at the first throw |
| Mesh.CellGridIsGather | index.js:115-121 | the outer loop is the lookup of the remaining rows' index stream |
| Mesh.TriangulationIsGather | index.js:113-121 | both loops together, from an empty `points`, are the lookup of the grid's index stream |
| SuperShape.QuadTriangles | index.js:105-111 | `quad` succeeds if and only if all four corners exist; it then appends exactly the triangles `(a, d, c)` and `(a, b, d)`; otherwise it throws at the first missing corner in the order `a`, `d`, `c`, `b` |
| SuperShape.CellBlock | index.js:113-121 | for any stride, on success, cell `(i, j)` occupies 18 numbers at `18 * (i * cols + j)`: the corners `p1`, `p2 + 1`, `p2`, then `p1`, `p1 + 1`, `p2 + 1` |
| SuperShape.CreateSuperShapeIsGather | index.js:81-124 | `createSuperShape` equals the lookup of its index stream in its vertex table |
| SuperShape.CreateSuperShapeSucceedsIff | index.js:81-124 | `createSuperShape` returns if and only if `parallels <= 0`, `meridians <= 0` or `parallels <= meridians`, and throws otherwise |
| SuperShape.CreateSuperShapeEmpty | index.js:113-123 | a zero or negative bound yields an empty stream |
| SuperShape.CreateSuperShapeLength | index.js:115-123 | a returned stream has `18 * parallels * meridians` numbers: two triangles per cell |
| SuperShape.CreateSuperShapeCell | index.js:113-121 | cell `(i, j)` of a returned stream is at `18 * (i * meridians + j)` and uses the table entries `p1 = i * (parallels + 1) + j`, `p1 + 1`, `p2 = p1 + parallels + 1`, `p2 + 1` |
| SuperShape.SquareGridCell | index.js:81-121 | when `meridians == parallels`, as in the default call, every call returns and cell `(i, j)` is made of the samples `(i, j)`, `(i, j + 1)`, `(i + 1, j)`, `(i + 1, j + 1)` |
| SuperShape.SourceStrideOverrun | index.js:113-119 | with `meridians = 1`, `parallels = 2` the call throws at vertex 7 of a six-entry table |
| SuperShape.SourceStrideCornerD | index.js:113-119 | with `meridians = 2`, `parallels = 1` the call as written returns, and the second vertex of its first triangle (corner `d` of cell `(0, 0)`) is sample `(1, 0)` |
| SuperShape.RowWidthStrideCornerD | index.js:94-119 | with stride `meridians + 1`, on every non-empty grid, that same vertex is sample `(1, 1)`, the diagonal corner of the cell |
| SuperShape.SourceStrideMisplacesCorner | index.js:113-119 | with `meridians = 2`, `parallels = 1` the call as written returns, yet its mesh differs from the one the row-width stride builds |
| SuperShape.CreateSuperShapeByRowWidthSucceeds | index.js:113-123 | with stride `meridians + 1` every grid size returns `18 * parallels * meridians` numbers |
| SuperShape.RowWidthCorners | index.js:94-119 | with stride `meridians + 1`, the corners of cell `(i, j)` are the samples `(i, j)`, `(i, j + 1)`, `(i + 1, j)`, `(i + 1, j + 1)` |
| SuperShape.RowWidthGatherCell | index.js:94-121 | the lookup of the row-width stream puts the samples `(i, j)`, `(i, j + 1)`, `(i + 1, j)`, `(i + 1, j + 1)` in cell `(i, j)` |
| SuperShape.RowWidthStrideCell | index.js:113-121 | with stride `meridians + 1`, cell `(i, j)` of the stream is made of those four samples, for every grid size |
| Scene.DrawCount | index.js:210 | three times the count is the stream length |
| Scene.Sphere | index.js:209 | at the default arguments (70, 70) the generator as written and the row-width generator produce the same result |
| Scene.DrawCountIsVertexCount | index.js:209-210 | whenever `createSuperShape` as written returns, the draw count is the whole number `6 * parallels * meridians` |
| Scene.DrawCountRowWidth | index.js:209-210 | with the row-width stride every grid size returns, and its draw count is `6 * parallels * meridians` |
| Scene.DefaultSphere | index.js:209-210 | the default call returns 88200 numbers and `drawArrays` is given 29400 vertices |
| Scene.SceneSettings | index.js:216-235 | the page sets seventeen uniforms before drawing, each one declared in the shaders |
| Scene.SetAllLayout | index.js:216-235 | a series of `getAndSetUniform` calls makes, for setting `k`, the lookup of its name at call `2k` and its upload at call `2k + 1` |
| Scene.SceneUploadsMatchDeclarations | index.js:216-235 | every uniform set before drawing gets the upload call that its declared GLSL type (`float`, `vec3`, `vec4`, `mat4`) needs |
| Uniforms.UploadFor | index.js:47-55 | `uniform1f` if and only if `!data.length`; `uniform3fv` if and only if the length is 3; `uniform4fv` if and only if it is 4; `uniformMatrix4fv` with `transpose = false` if and only if it is any other length; the payload is the value's own elements |
| Uniforms.GetAndSetUniform | index.js:45-57 | one lookup of the name, then one upload to that location, and the looked-up location is returned |
| Uniforms.DispatchFollowsLength | index.js:47-55 | the upload kind agrees with a table of element counts indexed by `data.length` alone |
| Uniforms.SameLengthSameUpload | index.js:47-55 | two values of the same length take the same upload call |
| Uniforms.ShortArraysTakeMatrixPath | index.js:47-55 | one- and two-element arrays go to `uniformMatrix4fv` unchanged |
| ShaderProgram.CreateProgramFromString | index.js:27-35 | returns if and only if both stages compile and the program links; otherwise the error is that of the first failing step (vertex compile, fragment compile, link) |
| ShaderProgram.TraceCases | index.js:4-35 | the whole call trace in each of the four outcomes: vertex compile failure, fragment compile failure, link failure, success |
| ShaderProgram.VertexCompileFailure | index.js:4-13 | a vertex compile failure makes five calls, all on the vertex shader, and never links, uses or deletes |
| ShaderProgram.FragmentCompileFailure | index.js:27-29 | a fragment compile failure makes nine calls: four on the vertex shader, then five on the fragment shader; it never links, uses or deletes |
| ShaderProgram.LinkFailure | index.js:15-25 | a link failure makes fourteen calls, links at call 11, ends with the program log query, and never uses or deletes |
| ShaderProgram.Linked | index.js:27-35 | a successful run makes sixteen calls, links at call 11 and ends with `useProgram`, delete vertex, delete fragment |
| ShaderProgram.CreateProgramFromStringOrder | index.js:27-35 | the vertex stage compiles before the fragment stage; a vertex failure touches only the vertex shader; a compile failure never links; a link failure never calls `useProgram`; failures delete nothing; success ends with `useProgram`, delete vertex, delete fragment |
| ShaderProgram.ReplayAppend | index.js:27-35 | replaying two pieces of a call trace is replaying the first and then the second |
| ShaderProgram.ReplayStep | index.js:4-35 | replaying a legal call followed by more calls is replaying the rest from the state that call leaves |
| ShaderProgram.ShaderRunReplay | index.js:4-13 | `createShader` leaves exactly one new shader created, holding its source and compile outcome |
| ShaderProgram.StepAttach | index.js:17-18 | attaching a compiled, not yet attached shader to the created program is legal and adds it to the attached set |
| ShaderProgram.StepLink | index.js:19 | linking once both shaders are attached is legal and records the context's link outcome for their two sources |
| ShaderProgram.AttachReplay | index.js:16-18 | creating the program and attaching both compiled shaders is legal and leaves both attached |
| ShaderProgram.LinkReplay | index.js:19-23 | linking, the status query and, on failure, the log query are legal and record the link outcome |
| ShaderProgram.ProgramRunReplay | index.js:15-25 | `createProgram` on two compiled shaders attaches both and records the link outcome |
| ShaderProgram.FinishReplay | index.js:31-33 | after a successful link the program becomes current and both shaders are deleted |
| ShaderProgram.CreateProgramFromStringLifecycle | index.js:4-35 | every call is legal for the objects' lifetimes whatever the context answers; afterwards the program is current exactly when the run returned, linked exactly when both stages compiled, and the shaders are deleted exactly when the run returned |

## Left out

- The superformula, `Math.cos`/`Math.sin`/`**` and the spherical coordinates (index.js:84-100): floating-point arithmetic with possible NaN and Infinity. The samples are an opaque `sample(i, j)`.
- `new Float32Array(points)` (index.js:123) and the `Float32Array` copies in `uniform3fv`/`uniform4fv`: rounding to 32-bit floats is not modelled, and the numbers pass through unchanged.
- `Scene.DrawCount`: a real-number division; JavaScript's float division is exact here because the length is a whole multiple of three below 2^53.
- glMatrix (`lookAt`, `perspective`, `fromXRotation`, `rotateY`, `invert`, `transpose`) and `nm`, `nv`, `rad`: a foreign matrix library. Its matrices enter as parameters, assumed to be sixteen entries long.
- `Scene.SceneSettings`: the two cut-off cosines are parameters rather than `Math.cos(rad(2))` and `Math.cos(rad(2.1))`.
- `createGl`, `createBufferInfo`, vertex attribute setup, `enable`, `clearColor` (index.js:37-43, 59-67, 240-250): canvas, DOM and buffer plumbing with no decisions in it.
- The GLSL sources and the lighting formula (index.js:127-207): they run on the GPU. Only the uniform declarations enter, as `Scene.Declared`.
- The `draw` / `requestAnimationFrame` loop (index.js:252-266): unbounded and host-scheduled, with a float rotation counter.
- `ShaderProgram`: shader and program objects are named by their stage, and a run creates one of each; the WebGL object handles themselves are not modelled.
- Mesh.CreateSuperShape: the grid bounds are integers, but the code (index.js:81) accepts any number. A fractional bound changes the loop counts and the stride. For example, `createSuperShape(1.5, 1)` runs `j` over 0 and 1 in both loops, and cell `(0, 1)` then spreads `vertices[4]` of a 4-entry table and throws. Non-integer bounds are outside the model because the page only calls it with the integer defaults.
- Mesh.CreateSuperShape: JavaScript arrays hold at most 2^32 - 1 elements and memory is finite, so on a huge grid `vertices.push` or `points.push` throws a `RangeError` (or the allocation fails) where the model returns `Success`. Sequences here are unbounded, and the only call uses 70 by 70.
- Uniform values other than numbers and arrays of numbers (strings, objects) are outside the `Value` type, because the page never passes them.

## Findings

| source | as written | input that shows it | evidently intended | confidence | as-written member | corrected member |
|---|---|---|---|---|---|---|
| index.js:113 | the cell stride is `row = parallels + 1`, but each table row holds `meridians + 1` vertices (index.js:94) | `createSuperShape(1, 2)` reaches vertex 7 of a 6-entry table and throws; `createSuperShape(2, 1)` returns but stitches cell `(0, 0)` to sample `(1, 0)` instead of `(1, 1)`; the default call (70, 70) is unaffected | `row = meridians + 1`, so that every grid size returns and each cell joins samples `(i, j)`, `(i, j + 1)`, `(i + 1, j)`, `(i + 1, j + 1)` | high; not executed | SuperShape.SourceStrideOverrun | SuperShape.RowWidthStrideCell |
