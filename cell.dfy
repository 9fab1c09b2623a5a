/**
 * `Cell<T, U, V, D>` (src/delaunay_core/cell.rs): a list of vertices, an
 * identity token, an optional list of neighbouring cells' tokens and an
 * optional payload. The constructors store what they are given and validate
 * nothing; the token comes from `make_uuid`, which here is a parameter of the
 * pure constructors and a `UuidSource` for the methods that draw it.
 */
module Cells {
  import opened Wrappers
  import opened Utilities
  import opened Vertices

  datatype Cell<U, V> = Cell(
    vertices: seq<Vertex<U>>,
    uuid: Uuid,
    neighbors: Option<seq<Uuid>>,
    data: Option<V>)

  /** `Cell::new` with the token `uuid`. */
  function New<U, V>(vertices: seq<Vertex<U>>, uuid: Uuid): Cell<U, V>
  {
    Cell(vertices, uuid, None, None)
  }

  /** `Cell::new_with_data` with the token `uuid`. */
  function NewWithData<U, V>(vertices: seq<Vertex<U>>, data: V, uuid: Uuid): Cell<U, V>
  {
    Cell(vertices, uuid, None, Some(data))
  }

  /** `number_of_vertices`: the length of the vertex list. */
  function NumberOfVertices<U, V>(c: Cell<U, V>): (n: nat)
    ensures n == 0 <==> c.vertices == []
  {
    |c.vertices|
  }

  /**
   * `dim`: the dimension `d` of the ambient space (the const generic `D`),
   * whatever the number of vertices the cell holds.
   */
  function Dim<U, V>(c: Cell<U, V>, d: nat): (r: nat)
    requires InDimension(c.vertices, d)
    ensures r == d
  {
    d
  }

  /**
   * `Cell::new` keeps the vertex list as given, in order and without a length
   * check, and starts with no neighbours and no payload.
   */
  lemma NewKeepsVertices<U, V>(vertices: seq<Vertex<U>>, uuid: Uuid)
    ensures New<U, V>(vertices, uuid).vertices == vertices
    ensures NumberOfVertices(New<U, V>(vertices, uuid)) == |vertices|
    ensures New<U, V>(vertices, uuid).neighbors == None
    ensures New<U, V>(vertices, uuid).data == None
  {
  }

  /**
   * `Cell::new_with_data` keeps the vertex list and the payload, starts with no
   * neighbours, and differs from `Cell::new` with the same token only in its payload.
   */
  lemma NewWithDataKeepsVertices<U, V>(vertices: seq<Vertex<U>>, data: V, uuid: Uuid)
    ensures NewWithData(vertices, data, uuid).vertices == vertices
    ensures NumberOfVertices(NewWithData(vertices, data, uuid)) == |vertices|
    ensures NewWithData(vertices, data, uuid).neighbors == None
    ensures NewWithData(vertices, data, uuid).data == Some(data)
    ensures NewWithData(vertices, data, uuid).(data := None) == New(vertices, uuid)
  {
  }

  /**
   * The cell tests' example: a one-vertex cell in three dimensions reports
   * dimension 3 and one vertex, so `dim` is not the simplex dimension
   * `number_of_vertices - 1`.
   */
  lemma DimIsAmbient<U, V>(v: Vertex<U>, data: V, uuid: Uuid)
    requires |v.point.coords| == 3
    ensures Dim(NewWithData([v], data, uuid), 3) == 3
    ensures NumberOfVertices(NewWithData([v], data, uuid)) == 1
    ensures Dim(New<U, V>([v], uuid), 3) != NumberOfVertices(New<U, V>([v], uuid)) - 1
  {
  }

  /** `Cell::new`, with its token drawn from `make_uuid`. */
  method MakeCell<U, V>(gen: UuidSource, vertices: seq<Vertex<U>>) returns (c: Cell<U, V>)
    requires gen.Valid()
    modifies gen
    ensures gen.Valid()
    ensures c == New(vertices, c.uuid)
    ensures c.uuid !in old(gen.issued) && gen.issued == old(gen.issued) + {c.uuid}
  {
    var uuid := gen.MakeUuid();
    c := New(vertices, uuid);
  }

  /** `Cell::new_with_data`, with its token drawn from `make_uuid`. */
  method MakeCellWithData<U, V>(gen: UuidSource, vertices: seq<Vertex<U>>, data: V) returns (c: Cell<U, V>)
    requires gen.Valid()
    modifies gen
    ensures gen.Valid()
    ensures c == NewWithData(vertices, data, c.uuid)
    ensures c.uuid !in old(gen.issued) && gen.issued == old(gen.issued) + {c.uuid}
  {
    var uuid := gen.MakeUuid();
    c := NewWithData(vertices, data, uuid);
  }

  /** Two cells built one after the other never share a token, whatever their vertices. */
  method MakeTwoCells<U, V>(gen: UuidSource, vs1: seq<Vertex<U>>, vs2: seq<Vertex<U>>, data: V)
    returns (c1: Cell<U, V>, c2: Cell<U, V>)
    requires gen.Valid()
    modifies gen
    ensures gen.Valid()
    ensures c1.uuid != c2.uuid
    ensures c1.uuid !in old(gen.issued) && c2.uuid !in old(gen.issued)
    ensures c1 == New(vs1, c1.uuid) && c2 == NewWithData(vs2, data, c2.uuid)
    ensures gen.issued == old(gen.issued) + {c1.uuid, c2.uuid}
  {
    c1 := MakeCell(gen, vs1);
    c2 := MakeCellWithData(gen, vs2, data);
  }

  /** Two cells keep their vertex lists, and a token drawn afterwards is new to both. */
  method ScenarioTwoCells<U>(vs1: seq<Vertex<U>>, vs2: seq<Vertex<U>>) {
    var gen := new UuidSource();
    var c1, c2 := MakeTwoCells<U, nat>(gen, vs1, vs2, 7);
    assert c1.vertices == vs1 && c2.vertices == vs2 && c2.data == Some(7);
    var id := gen.MakeUuid();
    assert id != c1.uuid && id != c2.uuid;
  }
}
