/**
 * Points and vertices as the triangulation data structure sees them. The files
 * that define them (point.rs, vertex.rs) are not part of this model; what is
 * here is only the behaviour the core relies on: a point is its coordinate
 * tuple, a vertex is a point, an optional payload and an identity token,
 * `Vertex::from_points` draws one fresh token per point, and
 * `Vertex::into_hashmap` keys the vertices by their tokens.
 */
module Vertices {
  import opened Wrappers
  import opened Utilities

  /** `Point<T, D>`: a coordinate tuple; equality is coordinate-wise. */
  datatype Point = Point(coords: seq<real>)

  /** `Vertex<T, U, D>`. */
  datatype Vertex<U> = Vertex(point: Point, data: Option<U>, uuid: Uuid)

  /**
   * Every vertex of `vs` has `d` coordinates: in the source the coordinate
   * array's length is the const generic `D`, so this holds by typing.
   */
  predicate InDimension<U>(vs: seq<Vertex<U>>, d: nat)
  {
    forall i :: 0 <= i < |vs| ==> |vs[i].point.coords| == d
  }

  /** No two vertices of `vs` carry the same token. */
  predicate DistinctUuids<U>(vs: seq<Vertex<U>>)
  {
    forall i, j :: 0 <= i < |vs| && 0 <= j < |vs| && vs[i].uuid == vs[j].uuid ==> i == j
  }

  function UuidsOf<U>(vs: seq<Vertex<U>>): set<Uuid>
  {
    set i | 0 <= i < |vs| :: vs[i].uuid
  }

  /**
   * `Vertex::from_points`: one vertex per point, in order, each with no payload
   * and a token drawn from the generator.
   */
  method FromPoints<U>(gen: UuidSource, points: seq<Point>) returns (vs: seq<Vertex<U>>)
    requires gen.Valid()
    modifies gen
    ensures gen.Valid()
    ensures |vs| == |points|
    ensures forall i :: 0 <= i < |vs| ==> vs[i].point == points[i] && vs[i].data == None
    ensures DistinctUuids(vs)
    ensures forall i :: 0 <= i < |vs| ==> vs[i].uuid !in old(gen.issued)
    ensures gen.issued == old(gen.issued) + UuidsOf(vs)
  {
    vs := [];
    for n := 0 to |points|
      invariant gen.Valid()
      invariant |vs| == n
      invariant forall i :: 0 <= i < n ==> vs[i].point == points[i] && vs[i].data == None
      invariant DistinctUuids(vs)
      invariant forall i :: 0 <= i < n ==> vs[i].uuid !in old(gen.issued)
      invariant gen.issued == old(gen.issued) + UuidsOf(vs)
    {
      var id := gen.MakeUuid();
      assert id !in UuidsOf(vs);
      UuidsOfSnoc(vs, Vertex(points[n], None, id));
      vs := vs + [Vertex(points[n], None, id)];
    }
  }

  lemma UuidsOfSnoc<U>(vs: seq<Vertex<U>>, v: Vertex<U>)
    ensures UuidsOf(vs + [v]) == UuidsOf(vs) + {v.uuid}
  {
    var ws := vs + [v];
    forall x | x in UuidsOf(ws) ensures x in UuidsOf(vs) + {v.uuid} {
      var i :| 0 <= i < |ws| && ws[i].uuid == x;
      if i < |vs| { assert vs[i] == ws[i]; }
    }
    forall x | x in UuidsOf(vs) + {v.uuid} ensures x in UuidsOf(ws) {
      if x == v.uuid {
        assert ws[|vs|].uuid == x;
      } else {
        var i :| 0 <= i < |vs| && vs[i].uuid == x;
        assert ws[i] == vs[i];
      }
    }
  }

  /** `Vertex::into_hashmap`: the vertices keyed by token; a later vertex wins a shared token. */
  function IntoHashmap<U>(vs: seq<Vertex<U>>): map<Uuid, Vertex<U>>
  {
    if vs == [] then map[]
    else IntoHashmap(vs[..|vs| - 1])[vs[|vs| - 1].uuid := vs[|vs| - 1]]
  }

  /**
   * With distinct tokens nothing is lost: the map has one entry per vertex,
   * its keys are exactly the tokens, and each vertex sits under its own token.
   */
  lemma {:induction false} IntoHashmapRegistersAll<U>(vs: seq<Vertex<U>>)
    requires DistinctUuids(vs)
    ensures |IntoHashmap(vs)| == |vs|
    ensures IntoHashmap(vs).Keys == UuidsOf(vs)
    ensures forall i :: 0 <= i < |vs| ==> IntoHashmap(vs)[vs[i].uuid] == vs[i]
  {
    if vs != [] {
      var init := vs[..|vs| - 1];
      var last := vs[|vs| - 1];
      assert vs == init + [last];
      assert DistinctUuids(init);
      IntoHashmapRegistersAll(init);
      UuidsOfSnoc(init, last);
      forall i | 0 <= i < |init| ensures init[i].uuid != last.uuid {
        assert init[i] == vs[i];
      }
      forall i | 0 <= i < |vs| ensures IntoHashmap(vs)[vs[i].uuid] == vs[i] {
        if i < |vs| - 1 {
          assert init[i] == vs[i];
          assert vs[i].uuid != last.uuid;
        }
      }
    }
  }
}
