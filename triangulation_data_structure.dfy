/**
 * `Tds<T, U, V, D>` (src/delaunay_core/triangulation_data_structure.rs): a
 * registry of vertices and cells keyed by identity token, with vertex
 * insertion, the dimension and size queries, the bounding supercell and the
 * skeleton of the Bowyer-Watson construction as the source has it.
 *
 * The first half of the module states what the registry operations do on
 * plain values (the specification the class methods are proved against); the
 * class `Tds` holds the two maps as fields and updates them in place.
 */
module TriangulationDataStructure {
  import opened Wrappers
  import opened Utilities
  import opened Vertices
  import opened Cells

  /** The errors the core reports. The first two are the messages of `add`. */
  datatype TdsError =
    | VertexAlreadyExists  // "Vertex already exists"
    | UuidAlreadyExists    // "Uuid already exists"
    | ExtremeScanFailed    // the extremum scan yielded no coordinates

  /** The margin added to every per-axis extreme of the supercell. */
  const Padding: real := 10.0

  // ---------------------------------------------------------------------------
  // The vertex registry as a value
  // ---------------------------------------------------------------------------

  /** Every entry is stored under its own vertex's token. */
  ghost predicate KeyedByUuid<U>(vs: map<Uuid, Vertex<U>>)
  {
    forall k :: k in vs ==> vs[k].uuid == k
  }

  /** Every registered vertex has `d` coordinates (in the source, by typing). */
  ghost predicate CoordsLength<U>(vs: map<Uuid, Vertex<U>>, d: nat)
  {
    forall k :: k in vs ==> |vs[k].point.coords| == d
  }

  /** Some registered vertex sits exactly at `coords`. */
  predicate HasCoords<U>(vs: map<Uuid, Vertex<U>>, coords: seq<real>)
  {
    exists k :: k in vs && vs[k].point.coords == coords
  }

  /** No two registered vertices share their coordinates. */
  ghost predicate DistinctCoords<U>(vs: map<Uuid, Vertex<U>>)
  {
    forall k1, k2 :: k1 in vs && k2 in vs && vs[k1].point.coords == vs[k2].point.coords ==> k1 == k2
  }

  /** The coordinate tuples present in the registry. */
  ghost function Coords<U>(vs: map<Uuid, Vertex<U>>): set<seq<real>>
  {
    set k | k in vs :: vs[k].point.coords
  }

  /** The coordinate tuples of a list of vertices. */
  ghost function CoordsOf<U>(ws: seq<Vertex<U>>): set<seq<real>>
  {
    set i | 0 <= i < |ws| :: ws[i].point.coords
  }

  /**
   * `add` on a registry `vs`: its return value and the registry afterwards.
   * A vertex at coordinates already present is refused and nothing changes.
   * Otherwise the vertex is inserted under its token; if the token was already
   * a key, the old entry has been replaced by the time the error is returned.
   */
  function AddToRegistry<U>(vs: map<Uuid, Vertex<U>>, v: Vertex<U>): (Outcome<TdsError>, map<Uuid, Vertex<U>>)
  {
    if HasCoords(vs, v.point.coords) then (Fail(VertexAlreadyExists), vs)
    else if v.uuid in vs then (Fail(UuidAlreadyExists), vs[v.uuid := v])
    else (Pass, vs[v.uuid := v])
  }

  /** A duplicate of stored coordinates is refused and leaves the registry as it was. */
  lemma AddRejectsDuplicate<U>(vs: map<Uuid, Vertex<U>>, v: Vertex<U>)
    requires HasCoords(vs, v.point.coords)
    ensures AddToRegistry(vs, v).0 == Fail(VertexAlreadyExists)
    ensures AddToRegistry(vs, v).1 == vs
  {
  }

  /**
   * Fresh coordinates and an unused token: `Ok`, the registry gains exactly that
   * key mapped to that vertex, one more vertex, and no other entry changes.
   */
  lemma AddRegistersFresh<U>(vs: map<Uuid, Vertex<U>>, v: Vertex<U>)
    requires forall k :: k in vs ==> vs[k].point.coords != v.point.coords
    requires v.uuid !in vs
    ensures AddToRegistry(vs, v).0 == Pass
    ensures AddToRegistry(vs, v).1.Keys == vs.Keys + {v.uuid}
    ensures AddToRegistry(vs, v).1[v.uuid] == v
    ensures forall k :: k in vs ==> AddToRegistry(vs, v).1[k] == vs[k]
    ensures |AddToRegistry(vs, v).1| == |vs| + 1
  {
  }

  /**
   * Fresh coordinates but a token already in use: the error is reported, yet the
   * entry under that token has been replaced by the new vertex; the count stays.
   */
  lemma AddOverwritesOnCollision<U>(vs: map<Uuid, Vertex<U>>, v: Vertex<U>)
    requires forall k :: k in vs ==> vs[k].point.coords != v.point.coords
    requires v.uuid in vs
    ensures AddToRegistry(vs, v).0 == Fail(UuidAlreadyExists)
    ensures AddToRegistry(vs, v).1.Keys == vs.Keys
    ensures AddToRegistry(vs, v).1[v.uuid] == v && vs[v.uuid] != v
    ensures forall k :: k in vs && k != v.uuid ==> AddToRegistry(vs, v).1[k] == vs[k]
    ensures |AddToRegistry(vs, v).1| == |vs|
  {
  }

  /**
   * `add` keeps the two registry invariants, on every path: entries stay keyed
   * by their own token, and no two vertices come to share coordinates (on a
   * token collision the replaced vertex's coordinates leave with it).
   */
  lemma AddPreservesInvariants<U>(vs: map<Uuid, Vertex<U>>, v: Vertex<U>)
    ensures KeyedByUuid(vs) ==> KeyedByUuid(AddToRegistry(vs, v).1)
    ensures DistinctCoords(vs) ==> DistinctCoords(AddToRegistry(vs, v).1)
  {
  }

  /** `add` of a `d`-dimensional vertex keeps every registered vertex `d`-dimensional. */
  lemma AddKeepsCoordsLength<U>(vs: map<Uuid, Vertex<U>>, v: Vertex<U>, d: nat)
    requires CoordsLength(vs, d) && |v.point.coords| == d
    ensures CoordsLength(AddToRegistry(vs, v).1, d)
  {
  }

  /** Under distinct coordinates there are as many coordinate tuples as vertices. */
  lemma {:induction false} CoordsCount<U>(vs: map<Uuid, Vertex<U>>)
    requires DistinctCoords(vs)
    ensures |Coords(vs)| == |vs|
    decreases |vs|
  {
    if vs != map[] {
      var k :| k in vs;
      var rest := vs - {k};
      assert |rest| == |vs| - 1;
      assert Coords(vs) == Coords(rest) + {vs[k].point.coords} by {
        forall c | c in Coords(vs) ensures c in Coords(rest) + {vs[k].point.coords} {
          var k' :| k' in vs && vs[k'].point.coords == c;
          if k' != k { assert k' in rest; }
        }
      }
      assert vs[k].point.coords !in Coords(rest);
      CoordsCount(rest);
    }
  }

  /** A sequence of `add` calls, one vertex after the other, ignoring their outcomes. */
  function AddAll<U>(vs: map<Uuid, Vertex<U>>, ws: seq<Vertex<U>>): map<Uuid, Vertex<U>>
    decreases |ws|
  {
    if ws == [] then vs else AddAll(AddToRegistry(vs, ws[0]).1, ws[1..])
  }

  lemma CoordsOfCons<U>(ws: seq<Vertex<U>>)
    requires ws != []
    ensures CoordsOf(ws) == {ws[0].point.coords} + CoordsOf(ws[1..])
  {
  }

  /** The coordinates after one `add` of a vertex under an unused token. */
  lemma CoordsAfterAdd<U>(vs: map<Uuid, Vertex<U>>, w: Vertex<U>)
    requires w.uuid !in vs
    ensures Coords(AddToRegistry(vs, w).1) == Coords(vs) + {w.point.coords}
  {
    var next := AddToRegistry(vs, w).1;
    if HasCoords(vs, w.point.coords) {
      var k :| k in vs && vs[k].point.coords == w.point.coords;
      assert w.point.coords in Coords(vs);
    } else {
      forall c | c in Coords(next) ensures c in Coords(vs) + {w.point.coords} {
        var k :| k in next && next[k].point.coords == c;
        if k != w.uuid { assert next[k] == vs[k]; }
      }
      forall c | c in Coords(vs) ensures c in Coords(next) {
        var k :| k in vs && vs[k].point.coords == c;
        assert next[k] == vs[k];
      }
      assert next[w.uuid].point.coords == w.point.coords;
    }
  }

  /** The tail of a list of fresh, distinct tokens stays fresh after the head is added. */
  lemma TailFresh<U>(vs: map<Uuid, Vertex<U>>, ws: seq<Vertex<U>>)
    requires ws != []
    requires DistinctUuids(ws)
    requires forall i :: 0 <= i < |ws| ==> ws[i].uuid !in vs
    ensures DistinctUuids(ws[1..])
    ensures forall i :: 0 <= i < |ws| - 1 ==> ws[1..][i].uuid !in AddToRegistry(vs, ws[0]).1
  {
  }

  /**
   * Adding vertices with fresh, distinct tokens one at a time to a registry with
   * distinct coordinates: the registry keeps distinct coordinates and holds
   * exactly the old tuples plus the new ones.
   */
  lemma {:induction false} AddAllKeepsDistinctCoords<U>(vs: map<Uuid, Vertex<U>>, ws: seq<Vertex<U>>)
    requires DistinctCoords(vs)
    requires DistinctUuids(ws)
    requires forall i :: 0 <= i < |ws| ==> ws[i].uuid !in vs
    ensures DistinctCoords(AddAll(vs, ws))
    ensures Coords(AddAll(vs, ws)) == Coords(vs) + CoordsOf(ws)
    decreases |ws|
  {
    if ws == [] {
      assert CoordsOf(ws) == {};
    } else {
      var w := ws[0];
      var rest := ws[1..];
      var next := AddToRegistry(vs, w).1;
      assert AddAll(vs, ws) == AddAll(next, rest);
      AddPreservesInvariants(vs, w);
      CoordsOfCons(ws);
      CoordsAfterAdd(vs, w);
      TailFresh(vs, ws);
      AddAllKeepsDistinctCoords(next, rest);
      assert Coords(next) + CoordsOf(rest) == Coords(vs) + CoordsOf(ws);
    }
  }

  /**
   * After such a sequence of `add` calls the registry counts one vertex per
   * distinct coordinate tuple: every exact duplicate has been refused.
   */
  lemma AddAllCountsDistinctCoords<U>(vs: map<Uuid, Vertex<U>>, ws: seq<Vertex<U>>)
    requires DistinctCoords(vs)
    requires DistinctUuids(ws)
    requires forall i :: 0 <= i < |ws| ==> ws[i].uuid !in vs
    ensures |AddAll(vs, ws)| == |Coords(vs) + CoordsOf(ws)|
  {
    AddAllKeepsDistinctCoords(vs, ws);
    CoordsCount(AddAll(vs, ws));
  }

  /**
   * `dim` for `n` registered vertices in dimension `d`: `min(n - 1, d)`. It is -1
   * for an empty registry, one less than the vertex count up to `d`, and
   * never more than `d`.
   */
  function Dimension(n: nat, d: nat): (r: int)
    ensures -1 <= r <= d
    ensures r == -1 <==> n == 0
    ensures n <= d ==> r == n - 1
    ensures d < n ==> r == d
  {
    if n - 1 < d then n - 1 else d
  }

  /**
   * The dimension grows by one with every successful `add` until it reaches `d`,
   * and a refused `add` leaves it where it was.
   */
  lemma DimensionAfterAdd<U>(vs: map<Uuid, Vertex<U>>, v: Vertex<U>, d: nat)
    ensures AddToRegistry(vs, v).0 == Pass ==>
      Dimension(|AddToRegistry(vs, v).1|, d) ==
        (if Dimension(|vs|, d) < d then Dimension(|vs|, d) + 1 else d)
    ensures AddToRegistry(vs, v).0.Fail? ==>
      Dimension(|AddToRegistry(vs, v).1|, d) == Dimension(|vs|, d)
  {
  }

  // ---------------------------------------------------------------------------
  // The supercell
  // ---------------------------------------------------------------------------

  /**
   * `find_extreme_coordinates`, which is not part of this model, as a parameter:
   * given the vertex map and a direction, the per-axis extremes, if any.
   */
  type ExtremeScan<!U> = (map<Uuid, Vertex<U>>, Ordering) -> Option<seq<real>>

  /**
   * Whatever the scan yields for `vs` is a `d`-tuple: in the source it returns
   * `[T; D]`, so this holds by typing.
   */
  predicate ScanInDimension<U>(scan: ExtremeScan<U>, vs: map<Uuid, Vertex<U>>, d: nat)
  {
    && (scan(vs, Less).Some? ==> |scan(vs, Less).value| == d)
    && (scan(vs, Greater).Some? ==> |scan(vs, Greater).value| == d)
  }

  /** The scan yields coordinates in both directions. */
  predicate ScanYields<U>(scan: ExtremeScan<U>, vs: map<Uuid, Vertex<U>>)
  {
    scan(vs, Less).Some? && scan(vs, Greater).Some?
  }

  /** Row `i` of the diagonal matrix of the padded maxima. */
  function DiagonalRow(paddedMax: seq<real>, i: nat): seq<real>
    requires i < |paddedMax|
  {
    seq(|paddedMax|, j requires 0 <= j < |paddedMax| => if j == i then paddedMax[i] else 0.0)
  }

  function Pad(coords: seq<real>, delta: real): seq<real>
  {
    seq(|coords|, j requires 0 <= j < |coords| => coords[j] + delta)
  }

  /** The supercell's points: the padded minimum corner, then the rows of `diag(padded max)`. */
  function SupercellPoints(minCoords: seq<real>, maxCoords: seq<real>): seq<Point>
    requires |minCoords| == |maxCoords|
  {
    var hi := Pad(maxCoords, Padding);
    [Point(Pad(minCoords, -Padding))] + seq(|hi|, i requires 0 <= i < |hi| => Point(DiagonalRow(hi, i)))
  }

  /**
   * The supercell has `D + 1` points of `D` coordinates each. Point 0 is the
   * minimum less 10 on every axis; point `i` (from 1) is the maximum of axis
   * `i - 1` plus 10 on that axis and 0, not the minimum, on every other axis.
   */
  lemma SupercellShape(minCoords: seq<real>, maxCoords: seq<real>)
    requires |minCoords| == |maxCoords|
    ensures var ps := SupercellPoints(minCoords, maxCoords);
      && |ps| == |minCoords| + 1
      && (forall i :: 0 <= i < |ps| ==> |ps[i].coords| == |minCoords|)
      && (forall j :: 0 <= j < |minCoords| ==> ps[0].coords[j] == minCoords[j] - 10.0)
      && (forall i, j :: 1 <= i < |ps| && 0 <= j < |minCoords| ==>
            ps[i].coords[j] == if j == i - 1 then maxCoords[j] + 10.0 else 0.0)
  {
  }

  /**
   * When the scan's answers bound a point on every axis, the supercell extends
   * at least 10 past it on every axis: the first point below it, and point
   * `j + 1` above it on axis `j`.
   */
  lemma SupercellPadsBounds(minCoords: seq<real>, maxCoords: seq<real>, p: Point)
    requires |minCoords| == |maxCoords| == |p.coords|
    requires forall j :: 0 <= j < |p.coords| ==> minCoords[j] <= p.coords[j] <= maxCoords[j]
    ensures var ps := SupercellPoints(minCoords, maxCoords);
      forall j :: 0 <= j < |p.coords| ==>
        ps[0].coords[j] + Padding <= p.coords[j] && p.coords[j] + Padding <= ps[j + 1].coords[j]
  {
  }

  /**
   * The supercell test: in three dimensions, when the minimum scan answers 0 on
   * every axis, the supercell has four points and one of them is (-10, -10, -10).
   */
  lemma SupercellHasCorner(minCoords: seq<real>, maxCoords: seq<real>)
    requires minCoords == [0.0, 0.0, 0.0] && |maxCoords| == 3
    ensures |SupercellPoints(minCoords, maxCoords)| == 4
    ensures Point([-10.0, -10.0, -10.0]) in SupercellPoints(minCoords, maxCoords)
  {
    assert SupercellPoints(minCoords, maxCoords)[0].coords == [-10.0, -10.0, -10.0];
  }

  /**
   * The supercell need not enclose the input. On the supercell test's input,
   * with the minimum scan answering 0 and the maximum (10, 11, 12), the corners
   * are (-10, -10, -10), (20, 0, 0), (0, 21, 0) and (0, 0, 22), and no convex
   * combination of them is the input point (10, 11, 12): x/20 + y/21 + z/22 is
   * at most 1 on the simplex but about 1.57 at that point.
   */
  lemma SupercellMissesInput(a: real, b: real, c: real, e: real)
    requires a >= 0.0 && b >= 0.0 && c >= 0.0 && e >= 0.0 && a + b + c + e == 1.0
    ensures var ps := SupercellPoints([0.0, 0.0, 0.0], [10.0, 11.0, 12.0]);
      !(forall j :: 0 <= j < 3 ==>
          a * ps[0].coords[j] + b * ps[1].coords[j] + c * ps[2].coords[j] + e * ps[3].coords[j]
          == [10.0, 11.0, 12.0][j])
  {
    var ps := SupercellPoints([0.0, 0.0, 0.0], [10.0, 11.0, 12.0]);
    assert ps[0].coords == [-10.0, -10.0, -10.0];
    assert ps[1].coords == [20.0, 0.0, 0.0];
    assert ps[2].coords == [0.0, 21.0, 0.0];
    assert ps[3].coords == [0.0, 0.0, 22.0];
  }

  /**
   * The supercell's point construction: pad the minima down and the maxima up
   * in place, then push the padded minimum corner and the diagonal rows.
   */
  method BuildSupercellPoints(minCoords: seq<real>, maxCoords: seq<real>) returns (points: seq<Point>)
    requires |minCoords| == |maxCoords|
    ensures points == SupercellPoints(minCoords, maxCoords)
  {
    var lo, hi := minCoords, maxCoords;
    for j := 0 to |lo|
      invariant |lo| == |minCoords|
      invariant forall k :: 0 <= k < j ==> lo[k] == minCoords[k] - Padding
      invariant forall k :: j <= k < |lo| ==> lo[k] == minCoords[k]
    {
      lo := lo[j := lo[j] - Padding];
    }
    for j := 0 to |hi|
      invariant |hi| == |maxCoords|
      invariant forall k :: 0 <= k < j ==> hi[k] == maxCoords[k] + Padding
      invariant forall k :: j <= k < |hi| ==> hi[k] == maxCoords[k]
    {
      hi := hi[j := hi[j] + Padding];
    }
    assert lo == Pad(minCoords, -Padding);
    assert hi == Pad(maxCoords, Padding);
    points := [Point(lo)];
    for i := 0 to |hi|
      invariant |points| == i + 1
      invariant points[0] == Point(lo)
      invariant forall k :: 1 <= k <= i ==> points[k] == Point(DiagonalRow(hi, k - 1))
    {
      var row: seq<real> := [];
      for j := 0 to |hi|
        invariant |row| == j
        invariant forall k :: 0 <= k < j ==> row[k] == if k == i then hi[i] else 0.0
      {
        row := row + [if j == i then hi[i] else 0.0];
      }
      assert row == DiagonalRow(hi, i);
      points := points + [Point(row)];
    }
  }

  /**
   * `c` is the supercell built from the scan's answers: its vertices sit at the
   * supercell's points, in order, without payloads, and it has no neighbours and
   * no payload of its own.
   */
  predicate IsSupercellOf<U, V>(c: Cell<U, V>, minCoords: seq<real>, maxCoords: seq<real>)
    requires |minCoords| == |maxCoords|
  {
    var ps := SupercellPoints(minCoords, maxCoords);
    && |c.vertices| == |ps|
    && (forall i :: 0 <= i < |ps| ==> c.vertices[i].point == ps[i] && c.vertices[i].data == None)
    && c.neighbors == None
    && c.data == None
  }

  /** Every token in `c` is new with respect to `issued`, and they are pairwise distinct. */
  ghost predicate FreshTokens<U, V>(c: Cell<U, V>, issued: set<Uuid>)
  {
    && c.uuid !in issued
    && c.uuid !in UuidsOf(c.vertices)
    && DistinctUuids(c.vertices)
    && (forall i :: 0 <= i < |c.vertices| ==> c.vertices[i].uuid !in issued)
  }

  // ---------------------------------------------------------------------------
  // The bad-cell scan of the Bowyer-Watson loop
  // ---------------------------------------------------------------------------

  /** The cells of `cells`, in order, whose circumsphere contains `v`. */
  function CellsContaining<U, V>(cells: seq<Cell<U, V>>, v: Vertex<U>, contains: (Cell<U, V>, Vertex<U>) -> bool)
    : seq<Cell<U, V>>
  {
    if cells == [] then []
    else
      var init := CellsContaining(cells[..|cells| - 1], v, contains);
      if contains(cells[|cells| - 1], v) then init + [cells[|cells| - 1]] else init
  }

  /** A cell is bad exactly when it is one of the cells and its circumsphere contains `v`. */
  lemma {:induction false} CellsContainingMembers<U, V>(cells: seq<Cell<U, V>>, v: Vertex<U>,
                                                        contains: (Cell<U, V>, Vertex<U>) -> bool)
    ensures |CellsContaining(cells, v, contains)| <= |cells|
    ensures forall c :: c in CellsContaining(cells, v, contains) <==> c in cells && contains(c, v)
  {
    if cells != [] {
      var init := cells[..|cells| - 1];
      CellsContainingMembers(init, v, contains);
      assert cells == init + [cells[|cells| - 1]];
    }
  }

  /** The inner loop of `bowyer_watson`: collect the cells whose circumsphere contains `v`. */
  method BadCells<U, V>(cells: seq<Cell<U, V>>, v: Vertex<U>, contains: (Cell<U, V>, Vertex<U>) -> bool)
    returns (bad: seq<Cell<U, V>>)
    ensures bad == CellsContaining(cells, v, contains)
  {
    bad := [];
    for i := 0 to |cells|
      invariant bad == CellsContaining(cells[..i], v, contains)
    {
      assert cells[..i + 1][..i] == cells[..i];
      if contains(cells[i], v) {
        bad := bad + [cells[i]];
      }
    }
    assert cells[..|cells|] == cells;
  }

  // ---------------------------------------------------------------------------
  // The triangulation data structure
  // ---------------------------------------------------------------------------

  /** The map `Tds::new` builds holds the points' vertices, keyed by token. */
  lemma RegisteredPoints<U>(vs: seq<Vertex<U>>, points: seq<Point>)
    requires |vs| == |points| && DistinctUuids(vs)
    requires forall i :: 0 <= i < |vs| ==> vs[i].point == points[i] && vs[i].data == None
    ensures KeyedByUuid(IntoHashmap(vs))
    ensures forall k :: k in IntoHashmap(vs) ==> IntoHashmap(vs)[k].point in points && IntoHashmap(vs)[k].data == None
    ensures forall i :: 0 <= i < |points| ==> exists k :: k in IntoHashmap(vs) && IntoHashmap(vs)[k].point == points[i]
  {
  }

  lemma FreshUuidsAreNew<U>(vs: seq<Vertex<U>>, before: set<Uuid>, after: set<Uuid>)
    requires after == before + UuidsOf(vs)
    requires forall i :: 0 <= i < |vs| ==> vs[i].uuid !in before
    ensures UuidsOf(vs) == after - before
  {
  }

  class Tds<U, V> {
    /** The const generic `D`, the dimension of the ambient space. */
    const D: nat
    var vertices: map<Uuid, Vertex<U>>
    var cells: map<Uuid, Cell<U, V>>

    ghost predicate Valid()
      reads this
    {
      KeyedByUuid(vertices) && CoordsLength(vertices, D)
    }

    /**
     * `Tds::new`: one vertex per point, each with a fresh token and no payload,
     * no duplicate check, and no cells.
     */
    constructor (d: nat, points: seq<Point>, gen: UuidSource)
      requires forall i :: 0 <= i < |points| ==> |points[i].coords| == d
      requires gen.Valid()
      modifies gen
      ensures Valid() && gen.Valid()
      ensures D == d
      ensures cells == map[]
      ensures |vertices| == |points|
      ensures vertices.Keys == gen.issued - old(gen.issued)
      ensures gen.issued == old(gen.issued) + vertices.Keys
      ensures vertices.Keys !! old(gen.issued)
      ensures forall k :: k in vertices ==> vertices[k].point in points && vertices[k].data == None
      ensures forall i :: 0 <= i < |points| ==> exists k :: k in vertices && vertices[k].point == points[i]
    {
      ghost var issued := gen.issued;
      var vs: seq<Vertex<U>> := FromPoints(gen, points);
      IntoHashmapRegistersAll(vs);
      FreshUuidsAreNew(vs, issued, gen.issued);
      D := d;
      RegisteredPoints(vs, points);
      vertices := IntoHashmap(vs);
      cells := map[];
    }

    /** `number_of_vertices`. */
    function NumberOfVertices(): (n: nat)
      reads this
      ensures n == 0 <==> vertices == map[]
    {
      |vertices|
    }

    /** `number_of_cells`. */
    function NumberOfCells(): (n: nat)
      reads this
      ensures n == 0 <==> cells == map[]
    {
      |cells|
    }

    /** `dim`: `min(number_of_vertices - 1, D)`, -1 for an empty registry. */
    function Dim(): (r: int)
      reads this
      ensures -1 <= r <= D
      ensures r == -1 <==> vertices == map[]
      ensures r == Dimension(NumberOfVertices(), D)
    {
      Dimension(|vertices|, D)
    }

    /** The scan at the start of `add`: is some registered vertex at `coords`? */
    method ContainsCoords(coords: seq<real>) returns (found: bool)
      ensures found <==> HasCoords(vertices, coords)
    {
      var remaining := vertices.Keys;
      while remaining != {}
        invariant remaining <= vertices.Keys
        invariant forall k :: k in vertices && k !in remaining ==> vertices[k].point.coords != coords
        decreases remaining
      {
        var k :| k in remaining;
        if vertices[k].point.coords == coords {
          return true;
        }
        remaining := remaining - {k};
      }
      return false;
    }

    /**
     * `add`: refuse a vertex at coordinates already present; otherwise insert it
     * under its token, reporting a token collision after the insertion.
     */
    method Add(vertex: Vertex<U>) returns (r: Outcome<TdsError>)
      requires Valid()
      requires |vertex.point.coords| == D
      modifies this
      ensures Valid()
      ensures (r, vertices) == AddToRegistry(old(vertices), vertex)
      ensures cells == old(cells)
      ensures r == Pass ==> Dim() == (if old(Dim()) < D then old(Dim()) + 1 else D)
      ensures r.Fail? ==> Dim() == old(Dim())
    {
      AddPreservesInvariants(vertices, vertex);
      AddKeepsCoordsLength(vertices, vertex, D);
      DimensionAfterAdd(vertices, vertex, D);
      var found := ContainsCoords(vertex.point.coords);
      if found {
        return Fail(VertexAlreadyExists);
      }
      var existed := vertex.uuid in vertices;
      vertices := vertices[vertex.uuid := vertex];
      if existed {
        r := Fail(UuidAlreadyExists);
      } else {
        r := Pass;
      }
    }

    /**
     * `supercell`: scan the per-axis extremes, pad them, and build a cell of
     * `D + 1` new vertices at the supercell's points. The error of a scan that
     * yields nothing is passed on.
     */
    method Supercell(scan: ExtremeScan<U>, gen: UuidSource) returns (r: Result<Cell<U, V>, TdsError>)
      requires ScanInDimension(scan, vertices, D)
      requires gen.Valid()
      modifies gen
      ensures gen.Valid()
      ensures r.Failure? <==> !ScanYields(scan, vertices)
      ensures r.Failure? ==> r.error == ExtremeScanFailed && gen.issued == old(gen.issued)
      ensures r.Success? ==> IsSupercellOf(r.value, scan(vertices, Less).value, scan(vertices, Greater).value)
      ensures r.Success? ==> InDimension(r.value.vertices, D)
      ensures r.Success? ==> FreshTokens(r.value, old(gen.issued))
      ensures r.Success? ==> gen.issued == old(gen.issued) + UuidsOf(r.value.vertices) + {r.value.uuid}
    {
      var minCoords := scan(vertices, Less);
      var maxCoords := scan(vertices, Greater);
      if minCoords.None? || maxCoords.None? {
        return Failure(ExtremeScanFailed);
      }
      var points := BuildSupercellPoints(minCoords.value, maxCoords.value);
      SupercellShape(minCoords.value, maxCoords.value);
      var vs: seq<Vertex<U>> := FromPoints(gen, points);
      var c: Cell<U, V> := MakeCell(gen, vs);
      r := Success(c);
    }

    /**
     * `bowyer_watson` as the source has it: seed the working list with the
     * supercell, then for every vertex collect the bad cells, which are never
     * removed nor replaced. On success the result is exactly the supercell.
     */
    method BowyerWatson(scan: ExtremeScan<U>, contains: (Cell<U, V>, Vertex<U>) -> bool, gen: UuidSource)
      returns (r: Result<seq<Cell<U, V>>, TdsError>)
      requires ScanInDimension(scan, vertices, D)
      requires gen.Valid()
      modifies gen
      ensures gen.Valid()
      ensures r.Failure? <==> !ScanYields(scan, vertices)
      ensures r.Failure? ==> r.error == ExtremeScanFailed && gen.issued == old(gen.issued)
      ensures r.Success? ==> |r.value| == 1
      ensures r.Success? ==> IsSupercellOf(r.value[0], scan(vertices, Less).value, scan(vertices, Greater).value)
      ensures r.Success? ==> InDimension(r.value[0].vertices, D)
      ensures r.Success? ==> FreshTokens(r.value[0], old(gen.issued))
      ensures r.Success? ==> gen.issued == old(gen.issued) + UuidsOf(r.value[0].vertices) + {r.value[0].uuid}
    {
      var working: seq<Cell<U, V>> := [];
      var supercell := Supercell(scan, gen);
      if supercell.Failure? {
        return Failure(supercell.error);
      }
      working := working + [supercell.value];
      ghost var issued := gen.issued;
      var remaining := vertices.Keys;
      while remaining != {}
        invariant remaining <= vertices.Keys
        invariant gen.Valid() && gen.issued == issued
        decreases remaining
      {
        var k :| k in remaining;
        var badCells := BadCells(working, vertices[k], contains);
        remaining := remaining - {k};
      }
      return Success(working);
    }
  }

  // ---------------------------------------------------------------------------
  // The scenarios of the source's unit tests
  // ---------------------------------------------------------------------------

  /** `tds_new`: four points give four vertices, no cells, dimension 3. */
  method ScenarioNew() {
    var gen := new UuidSource();
    var points := [Point([1.0, 2.0, 3.0]), Point([4.0, 5.0, 6.0]), Point([7.0, 8.0, 9.0]), Point([10.0, 11.0, 12.0])];
    var tds := new Tds<nat, nat>(3, points, gen);
    assert tds.NumberOfVertices() == 4;
    assert tds.NumberOfCells() == 0;
    assert tds.Dim() == 3;
  }

  /** A token drawn before `Tds::new` is never handed out again after it. */
  method ScenarioTokensSurviveNew() {
    var gen := new UuidSource();
    var a := gen.MakeUuid();
    var tds := new Tds<nat, nat>(0, [], gen);
    var b := gen.MakeUuid();
    assert a != b;
  }

  /** `tds_no_add`: adding a vertex at a registered point is refused and changes nothing. */
  method ScenarioNoAdd() {
    var gen := new UuidSource();
    var points := [Point([1.0, 2.0, 3.0]), Point([4.0, 5.0, 6.0]), Point([7.0, 8.0, 9.0]), Point([10.0, 11.0, 12.0])];
    var tds := new Tds<nat, nat>(3, points, gen);
    var id := gen.MakeUuid();
    assert points[0] == Point([1.0, 2.0, 3.0]);
    var r := tds.Add(Vertex(Point([1.0, 2.0, 3.0]), None, id));
    assert r == Fail(VertexAlreadyExists);
    assert tds.NumberOfVertices() == 4;
    assert tds.Dim() == 3;
  }

  /** `tds_add_dim`: the dimension climbs from -1 with each new vertex and stops at 3. */
  method ScenarioAddDim() {
    var gen := new UuidSource();
    var tds := new Tds<nat, nat>(3, [], gen);
    assert tds.NumberOfVertices() == 0 && tds.NumberOfCells() == 0 && tds.Dim() == -1;
    var coords := [[1.0, 2.0, 3.0], [4.0, 5.0, 6.0], [7.0, 8.0, 9.0], [10.0, 11.0, 12.0], [13.0, 14.0, 15.0]];
    for n := 0 to 5
      invariant tds.Valid() && gen.Valid()
      invariant tds.vertices.Keys <= gen.issued
      invariant tds.NumberOfVertices() == n
      invariant tds.Dim() == if n <= 3 then n - 1 else 3
      invariant forall k :: k in tds.vertices ==> exists i :: 0 <= i < n && tds.vertices[k].point.coords == coords[i]
    {
      var id := gen.MakeUuid();
      forall k | k in tds.vertices ensures tds.vertices[k].point.coords != coords[n] {
        var i :| 0 <= i < n && tds.vertices[k].point.coords == coords[i];
      }
      var r := tds.Add(Vertex(Point(coords[n]), None, id));
      assert r == Pass;
    }
  }

  /**
   * `tds_supercell` and `tds_bowyer_watson`, with a scan that starts from 0 and
   * so answers 0 below all-positive points: the supercell has four vertices, one
   * of them at (-10, -10, -10), Bowyer-Watson returns one cell, and tokens drawn
   * afterwards differ from the supercell's.
   */
  method ScenarioSupercell(contains: (Cell<nat, nat>, Vertex<nat>) -> bool) {
    var gen := new UuidSource();
    var points := [Point([1.0, 2.0, 3.0]), Point([4.0, 5.0, 6.0]), Point([7.0, 8.0, 9.0]), Point([10.0, 11.0, 12.0])];
    var tds := new Tds<nat, nat>(3, points, gen);
    var scan: ExtremeScan<nat> := (vs, o) => if o == Less then Some([0.0, 0.0, 0.0]) else Some([10.0, 11.0, 12.0]);
    var r := tds.Supercell(scan, gen);
    assert r.Success?;
    SupercellHasCorner([0.0, 0.0, 0.0], [10.0, 11.0, 12.0]);
    var ps := SupercellPoints([0.0, 0.0, 0.0], [10.0, 11.0, 12.0]);
    assert |r.value.vertices| == 4;
    var i :| 0 <= i < |ps| && ps[i] == Point([-10.0, -10.0, -10.0]);
    assert r.value.vertices[i].point == Point([-10.0, -10.0, -10.0]);
    var later := gen.MakeUuid();
    assert later != r.value.uuid;
    var cells := tds.BowyerWatson(scan, contains, gen);
    assert cells.Success? && |cells.value| == 1;
    assert cells.value[0].uuid != r.value.uuid && cells.value[0].uuid != later;
  }
}
