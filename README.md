# A model of the d-delaunay triangulation registry

This project models the bookkeeping core of the `d-delaunay` library, a
dimension-generic Delaunay triangulation in Rust. It covers two files.

- `Tds` (the triangulation data structure) is a registry. It maps identity
  tokens (UUIDs) to vertices and identity tokens to cells. Its operations are:
  - bulk construction from points;
  - `add`, which deduplicates by coordinates;
  - the size and dimension queries;
  - `supercell`, the simplex that seeds the construction;
  - `bowyer_watson`, the incremental construction. Only its skeleton exists in
    the source.
- `Cell` is a value: a vertex list, a token, optional neighbour tokens and an
  optional payload.

Structure:

- `wrappers.dfy`: `Option`, `Result` (for `Result<T, &str>`) and `Outcome`
  (for `Result<(), &str>`).
- `utilities.dfy`: tokens are numbers (`Uuid = nat`). `UuidSource` plays the
  part of `make_uuid`: a generator that never hands out the same token twice.
- `vertex.dfy`: `Point` and `Vertex`, plus the two vertex helpers the core
  calls, `Vertex::from_points` and `Vertex::into_hashmap`. The files that define
  them (point.rs, vertex.rs) are not part of this model. Only the behaviour the
  core relies on is modelled.
- `cell.dfy`: the pure `Cell` datatype. Its constructors take the token as a
  parameter. Methods that draw the token from a `UuidSource` stand beside them.
- `triangulation_data_structure.dfy`:
  - `AddToRegistry`, the value-level specification of `add`, and the lemmas
    about it;
  - the supercell's points;
  - the bad-cell scan;
  - the class `Tds`. Its fields are `D`, `vertices` and `cells`, and its
    methods are proved against those functions;
  - four methods that replay the source's unit tests `tds_new`, `tds_no_add`
    and `tds_add_dim`, and `tds_supercell` with `tds_bowyer_watson`, as proved
    assertions.

Modelling choices:

- Coordinates are `real`, and the padding is exactly `10`.
- The const generic `D` becomes the field `Tds.D`. For a cell it is the
  parameter `d` of `Cells.Dim`.
- `find_extreme_coordinates` is not part of this model, so `Tds.Supercell` takes
  it as a parameter (`ExtremeScan`).
- `circumsphere_contains` is not part of this model either. `Tds.BowyerWatson`
  takes it as a parameter (`contains`), an uninterpreted predicate.

Where this code departs from the usual Bowyer–Watson construction, the model
follows the code:

- **Supercell rows.** Row `i` of the supercell is row `i` of `diag(max + 10)`.
  It holds `max[i] + 10` on axis `i` and `0` on every other axis, not the padded
  minimum. So the simplex need not enclose the points, although the source's
  comments say it contains all the input vertices. On the supercell test's
  input the corners are (-10, -10, -10), (20, 0, 0), (0, 21, 0) and (0, 0, 22),
  and the input point (10, 11, 12) lies outside them
  (`SupercellMissesInput`).
- **`Cell::new` and `Cell::new_with_data` validate nothing.** There is no
  vertex-count check: a cell may hold any number of vertices.
- **`Cell::dim` returns `D`.** It is not `number_of_vertices - 1`
  (`Cells.DimIsAmbient`).
- **`bowyer_watson` only collects bad cells.** It never removes or replaces a
  cell, so on success it returns exactly the supercell.
- **`add` on a token collision replaces the stored entry before it returns the
  error** (`AddOverwritesOnCollision`).
- **Dedup asymmetry.** `Tds::new` does not deduplicate coordinates. Only `add`
  does.

A version mismatch exists in the source:

- `supercell` treats `Cell::new` as returning a `Result`.
- `bowyer_watson` calls `circumsphere_contains`, which `Cell` in cell.rs does
  not define.

The model uses `Cell` as cell.rs defines it. `supercell` succeeds whenever the
scan yields coordinates in both directions.

In Rust every coordinate array has length `D` by its type (`[T; D]`). The model
states this as a requirement: `Tds.Valid()` keeps every registered vertex at `D`
coordinates, the constructor and `Tds.Add` require `D`-coordinate input,
`Cells.Dim` requires `D`-coordinate vertices, and `Tds.Supercell` requires the
scan to answer with `D`-tuples (`ScanInDimension`).

## Model

| member | source | states |
|---|---|---|
| `Utilities.UuidSource.MakeUuid` | src/delaunay_core/cell.rs:15 | `make_uuid` returns a token never issued before and records it as issued |
| `Vertices.FromPoints` | src/delaunay_core/triangulation_data_structure.rs:81 | `Vertex::from_points` gives one vertex per point, in order, with no payload; the tokens are pairwise distinct and fresh, and they are exactly what the generator issued |
| `Vertices.IntoHashmapRegistersAll` | src/delaunay_core/triangulation_data_structure.rs:81 | with distinct tokens, `Vertex::into_hashmap` has one entry per vertex; its keys are the tokens, and each vertex is stored under its own token |
| `Cells.NumberOfVertices` | src/delaunay_core/cell.rs:26-28 | the vertex count is zero exactly when the vertex list is empty |
| `Cells.Dim` | src/delaunay_core/cell.rs:42-44 | for a cell of `D`-coordinate vertices, the dimension is the ambient `D`, whatever the number of vertices |
| `Cells.NewKeepsVertices` | src/delaunay_core/cell.rs:30-40 | `Cell::new` keeps the vertex list unchanged and in order, without a length check; its count is the list's length; neighbours and payload are `None` |
| `Cells.NewWithDataKeepsVertices` | src/delaunay_core/cell.rs:14-24 | `Cell::new_with_data` keeps the vertex list, has payload `Some(d)` and no neighbours, and differs from `Cell::new` with the same token only in its payload |
| `Cells.DimIsAmbient` | src/delaunay_core/cell.rs:54-67 | the test's one-vertex cell in 3-D reports dimension 3 and 1 vertex, so `dim` differs from `number_of_vertices - 1` |
| `Cells.MakeCell` | src/delaunay_core/cell.rs:30-40 | `Cell::new` with a fresh token drawn from the generator |
| `Cells.MakeCellWithData` | src/delaunay_core/cell.rs:14-24 | `Cell::new_with_data` with a fresh token drawn from the generator |
| `Cells.MakeTwoCells` | src/delaunay_core/cell.rs:30-31 | two cells built one after the other are `Cell::new(vs1)` and `Cell::new_with_data(vs2, data)` with distinct tokens that were not issued before; the generator's issued set grows by exactly those two tokens |
| `TriangulationDataStructure.AddRejectsDuplicate` | src/delaunay_core/triangulation_data_structure.rs:119-124 | if a stored vertex has the same coordinates, `add` returns "Vertex already exists" and the registry is unchanged |
| `TriangulationDataStructure.AddRegistersFresh` | src/delaunay_core/triangulation_data_structure.rs:126-133 | fresh coordinates with an unused token give `Ok`; the key set gains exactly that token, which maps to the vertex; the count rises by one; no other entry changes |
| `TriangulationDataStructure.AddOverwritesOnCollision` | src/delaunay_core/triangulation_data_structure.rs:126-131 | fresh coordinates with a used token return "Uuid already exists", yet that entry now holds the new vertex; keys, count and all other entries are unchanged |
| `TriangulationDataStructure.AddPreservesInvariants` | src/delaunay_core/triangulation_data_structure.rs:115-134 | on every path `add` keeps entries keyed by their own token and keeps coordinates pairwise distinct |
| `TriangulationDataStructure.AddKeepsCoordsLength` | src/delaunay_core/triangulation_data_structure.rs:115-134 | adding a `D`-coordinate vertex keeps every registered vertex at `D` coordinates |
| `TriangulationDataStructure.AddAllKeepsDistinctCoords` | src/delaunay_core/triangulation_data_structure.rs:119-133 | a run of `add` calls with fresh distinct tokens keeps coordinates distinct; the registry then holds exactly the old coordinate tuples plus the added ones |
| `TriangulationDataStructure.AddAllCountsDistinctCoords` | src/delaunay_core/triangulation_data_structure.rs:119-133 | after such a run, the vertex count equals the number of distinct coordinate tuples |
| `TriangulationDataStructure.Dimension` | src/delaunay_core/triangulation_data_structure.rs:172-176 | `min(n - 1, D)`: in `[-1, D]`; -1 exactly when empty; `n - 1` up to `D`; `D` beyond |
| `TriangulationDataStructure.DimensionAfterAdd` | src/delaunay_core/triangulation_data_structure.rs:329-356 | each successful `add` raises the dimension by one until it saturates at `D`; a refused `add` leaves it unchanged |
| `TriangulationDataStructure.SupercellShape` | src/delaunay_core/triangulation_data_structure.rs:199-228 | the supercell has `D + 1` points of `D` coordinates; point 0 is `min[j] - 10` on every axis; point `i + 1` is `max[i] + 10` on axis `i` and 0 on the others |
| `TriangulationDataStructure.SupercellPadsBounds` | src/delaunay_core/triangulation_data_structure.rs:202-209 | for a point within the scanned bounds, the first supercell point is at least 10 below it on every axis, and point `j + 1` is at least 10 above it on axis `j` |
| `TriangulationDataStructure.SupercellHasCorner` | src/delaunay_core/triangulation_data_structure.rs:397-401 | in 3-D, when the minimum scan answers 0 on every axis, the supercell has 4 points and one of them is (-10, -10, -10) |
| `TriangulationDataStructure.SupercellMissesInput` | src/delaunay_core/triangulation_data_structure.rs:187-228 | contrary to the comment that the supercell contains all input vertices: for scan answers (0, 0, 0) and (10, 11, 12), no convex combination of the four supercell points is the input point (10, 11, 12) |
| `TriangulationDataStructure.BuildSupercellPoints` | src/delaunay_core/triangulation_data_structure.rs:202-228 | the padding loops and the row-pushing loop build exactly the supercell's points |
| `TriangulationDataStructure.CellsContainingMembers` | src/delaunay_core/triangulation_data_structure.rs:249-254 | a cell is bad exactly when it is among the cells and its circumsphere contains the vertex; there are no more bad cells than cells |
| `TriangulationDataStructure.BadCells` | src/delaunay_core/triangulation_data_structure.rs:249-254 | the inner loop collects exactly the bad cells, in order |
| `TriangulationDataStructure.Tds.constructor` | src/delaunay_core/triangulation_data_structure.rs:79-89 | `Tds::new` registers one vertex per `D`-coordinate point with a fresh token, no payload and no duplicate check; it creates no cells, keeps entries keyed by token, and establishes the invariant; the vertex tokens are disjoint from those issued before, and the issued set grows by exactly them |
| `TriangulationDataStructure.Tds.NumberOfVertices` | src/delaunay_core/triangulation_data_structure.rs:154-156 | the vertex count is zero exactly when the vertex map is empty |
| `TriangulationDataStructure.Tds.NumberOfCells` | src/delaunay_core/triangulation_data_structure.rs:183-185 | the cell count is zero exactly when the cell map is empty |
| `TriangulationDataStructure.Tds.Dim` | src/delaunay_core/triangulation_data_structure.rs:172-176 | `dim` is in `[-1, D]`, is -1 exactly when empty, and equals `Dimension` of the vertex count |
| `TriangulationDataStructure.Tds.ContainsCoords` | src/delaunay_core/triangulation_data_structure.rs:119-124 | the scan over the stored vertices finds a match exactly when some stored vertex has the given coordinates |
| `TriangulationDataStructure.Tds.Add` | src/delaunay_core/triangulation_data_structure.rs:115-134 | the return value and the new vertex map are those of `AddToRegistry`; cells are unchanged; the invariant is kept; the dimension rises by one (up to `D`) on `Ok` and is unchanged on `Err` |
| `TriangulationDataStructure.Tds.Supercell` | src/delaunay_core/triangulation_data_structure.rs:193-231 | for a scan answering with `D`-tuples: fails exactly when the scan yields nothing, issuing no token; otherwise the result is a cell whose `D`-coordinate vertices sit at the supercell points of the scan's answers, with no payloads and no neighbours; its tokens are fresh and distinct, and they are exactly the tokens the generator has now issued in addition |
| `TriangulationDataStructure.Tds.BowyerWatson` | src/delaunay_core/triangulation_data_structure.rs:233-285 | passes on the supercell's error, issuing no token; otherwise it returns a list of length 1 whose only cell is the supercell, because the loop never changes the working list; the supercell's tokens are recorded as issued |

## Left out

- `TriangulationDataStructure.Tds.constructor`: says each point has a vertex, each vertex's point is among the points, and the counts are equal. With repeated points, this does not pin which vertex belongs to which occurrence.
- `find_extreme_coordinates` is a parameter of `Tds.Supercell`. The error `ExtremeScanFailed`, for a scan that yields no coordinates, has no counterpart in this version of the source. It stands for the supercell error that `bowyer_watson` passes on.
- The test's expected corner (-10, -10, -10) for all-positive input implies the scan starts from 0. That is stated as a hypothesis of `SupercellHasCorner`, not derived.
- `circumsphere_contains` is an uninterpreted parameter. The `.unwrap()` panic on its error is not modelled.
- The loop over bad cells after the scan has an empty body. The commented-out cavity and retriangulation code is dead. Neither is modelled.
- `assign_neighbors` and `assign_incident_cells` are `todo!()` panics with no behaviour.
- `make_uuid` draws random UUIDs. Here a counter hands out fresh numbers, so generated tokens never collide. A caller can still build a vertex whose token is already used, which is where the collision path of `add` applies.
- Iteration over the hash map is in an arbitrary order (a choice from the set of keys). No particular order is modelled.
- `f64` arithmetic is modelled as exact reals.
- The `as i32` casts in `dim` are modelled as unbounded integers, so there is no wrap-around for 2^31 or more vertices.
- The `nalgebra` diagonal matrix is written out row by row.
- `src/lib.rs` has only module declarations, trait aliases and a compile-time check.
- serde serialization, `Debug` and `println!` output are I/O concerns.
