/**
 Sparse edge partitioning with local numbering: `PartitioningAlgorithm.partition` in `parla/partitioning.py`. The
 user's `get_vertex_master` and `get_edge_master` are deterministic functions here.
 */
module Partitioning {
  import opened Wrappers

  /** A stored nonzero. */
  datatype Entry = Entry(i: nat, j: nat, value: int)

  /** A sparse matrix, its nonzeros in the order `nonzero()` lists them. */
  datatype Matrix = Matrix(rows: nat, columns: nat, entries: seq<Entry>)

  predicate WellFormed(a: Matrix) {
    && (forall k | 0 <= k < |a.entries| ::
          a.entries[k].i < a.rows && a.entries[k].j < a.columns && a.entries[k].value != 0)
    && (forall k, l | 0 <= k < l < |a.entries| ::
          a.entries[k].i != a.entries[l].i || a.entries[k].j != a.entries[l].j)
  }

  type Place = (nat, nat)

  datatype Partition = Partition(edges: map<Place, int>, globalIds: seq<nat>, vertexMasters: seq<int>)

  type Master = (nat, nat) -> int

  predicate Ascending(ids: seq<nat>) {
    forall k, l | 0 <= k < l < |ids| :: ids[k] < ids[l]
  }

  // ---- sorting a set, and searching the result ----

  /** `sorted(vs)`. */
  method Sorted(vs: set<nat>) returns (ids: seq<nat>)
    ensures Ascending(ids) && forall v :: v in ids <==> v in vs
  {
    var rest := vs;
    ids := [];
    while rest != {}
      invariant Ascending(ids) && rest <= vs
      invariant forall v :: v in ids <==> v in vs && v !in rest
      invariant forall v, w | v in ids && w in rest :: v < w
      decreases rest
    {
      var least := Least(rest);
      assert forall k | 0 <= k < |ids| :: ids[k] in ids;
      ids := ids + [least];
      rest := rest - {least};
    }
  }

  method Least(vs: set<nat>) returns (least: nat)
    requires vs != {}
    ensures least in vs && forall v | v in vs :: least <= v
  {
    least :| least in vs;
    var rest := vs - {least};
    while rest != {}
      invariant least in vs && rest <= vs
      invariant forall v | v in vs && v !in rest :: least <= v
      decreases rest
    {
      var v :| v in rest;
      if v < least {
        least := v;
      }
      rest := rest - {v};
    }
  }

  /** `global_ids.searchsorted(v)`: the position of `v` in an ascending list that contains it. */
  function SearchSorted(ids: seq<nat>, v: nat): (k: nat)
    ensures k <= |ids| && (forall l | 0 <= l < k :: ids[l] < v) && (k < |ids| ==> v <= ids[k])
  {
    if ids == [] || v <= ids[0] then 0 else 1 + SearchSorted(ids[1..], v)
  }

  lemma SearchFinds(ids: seq<nat>, v: nat, k: nat)
    requires Ascending(ids) && k < |ids| && ids[k] == v
    ensures SearchSorted(ids, v) == k
  {
  }

  // ---- what a partitioning is ----

  /** `v` is an endpoint of one of the first `count` edges that `p` owns. */
  ghost predicate Endpoint(a: Matrix, master: Master, p: int, v: nat, count: nat)
    requires count <= |a.entries|
  {
    exists k ::
        0 <= k < count && master(a.entries[k].i, a.entries[k].j) == p && (a.entries[k].i == v || a.entries[k].j == v)
  }

  /** Local entry `(x, y)` of partition `p` stands for one of the first `count` edges that `p` owns. */
  ghost predicate Stands(a: Matrix, master: Master, p: int, ids: seq<nat>, x: nat, y: nat, value: int, count: nat)
    requires count <= |a.entries|
  {
    && x < |ids| && y < |ids|
    && exists k :: 0 <= k < count && master(a.entries[k].i, a.entries[k].j) == p
                   && a.entries[k] == Entry(ids[x], ids[y], value)
  }

  ghost predicate EdgesRight(a: Matrix, master: Master, p: int, ids: seq<nat>, edges: map<Place, int>, count: nat)
    requires count <= |a.entries|
  {
    && (forall x: nat, y: nat | (x, y) in edges :: Stands(a, master, p, ids, x, y, edges[(x, y)], count))
    && (forall x: nat, y: nat, value | Stands(a, master, p, ids, x, y, value, count) ::
        (x, y) in edges && edges[(x, y)] == value)
  }

  /** Each partition's global ids are ascending and exactly the endpoints of its edges; its local entries are exactly
      its edges, renumbered. */
  ghost predicate Partitions(a: Matrix, master: Master, parts: seq<Partition>) {
    forall p | 0 <= p < |parts| ::
      && Ascending(parts[p].globalIds)
      && (forall v :: v in parts[p].globalIds <==> Endpoint(a, master, p, v, |a.entries|))
      && EdgesRight(a, master, p, parts[p].globalIds, parts[p].edges, |a.entries|)
  }

  /** Every partition knows the master of every vertex. */
  predicate MastersRight(a: Matrix, vertexMaster: nat -> int, masters: seq<int>) {
    |masters| == a.rows && forall v | 0 <= v < a.rows :: masters[v] == vertexMaster(v)
  }

  predicate ValidMasters(a: Matrix, vertexMaster: nat -> int, master: Master, parts: nat) {
    && (forall v | 0 <= v < a.rows :: 0 <= vertexMaster(v) < parts)
    && (forall k | 0 <= k < |a.entries| :: 0 <= master(a.entries[k].i, a.entries[k].j) < parts)
  }

  // ---- the algorithm ----

  lemma StandsNext(a: Matrix, master: Master, p: int, ids: seq<nat>, x: nat, y: nat, value: int, k: nat)
    requires WellFormed(a) && k < |a.entries| && Ascending(ids)
    ensures var e := a.entries[k];
            Stands(a, master, p, ids, x, y, value, k + 1) <==>
              Stands(a, master, p, ids, x, y, value, k)
              || (master(e.i, e.j) == p && x < |ids| && y < |ids| && e == Entry(ids[x], ids[y], value))
  {
  }

  /** No earlier edge has the coordinates of the `k`-th. */
  lemma FreshPlace(a: Matrix, master: Master, p: int, ids: seq<nat>, x: nat, y: nat, value: int, k: nat)
    requires WellFormed(a) && k < |a.entries| && Stands(a, master, p, ids, x, y, value, k)
    ensures ids[x] != a.entries[k].i || ids[y] != a.entries[k].j
  {
  }

  lemma NextOwnEdge(a: Matrix, master: Master, p: int, ids: seq<nat>, edges: map<Place, int>, k: nat, x0: nat, y0: nat)
    requires WellFormed(a) && k < |a.entries| && Ascending(ids) && EdgesRight(a, master, p, ids, edges, k)
    requires x0 < |ids| && y0 < |ids| && ids[x0] == a.entries[k].i && ids[y0] == a.entries[k].j
    requires master(a.entries[k].i, a.entries[k].j) == p
    ensures EdgesRight(a, master, p, ids, edges[(x0, y0) := a.entries[k].value], k + 1)
  {
    var e, next, n := a.entries[k], edges[(x0, y0) := a.entries[k].value], k + 1;
    forall x: nat, y: nat | (x, y) in next ensures Stands(a, master, p, ids, x, y, next[(x, y)], n) {
      StandsNext(a, master, p, ids, x, y, next[(x, y)], k);
    }
    forall x: nat, y: nat, value | Stands(a, master, p, ids, x, y, value, n)
      ensures (x, y) in next && next[(x, y)] == value
    {
      StandsNext(a, master, p, ids, x, y, value, k);
      if Stands(a, master, p, ids, x, y, value, k) {
        FreshPlace(a, master, p, ids, x, y, value, k);
      }
    }
  }

  lemma NextEdge(a: Matrix, master: Master, p: int, ids: seq<nat>, edges: map<Place, int>, k: nat)
    requires WellFormed(a) && k < |a.entries| && Ascending(ids) && EdgesRight(a, master, p, ids, edges, k)
    requires var e := a.entries[k]; master(e.i, e.j) == p ==> e.i in ids && e.j in ids
    ensures var e := a.entries[k];
            var key := (SearchSorted(ids, e.i), SearchSorted(ids, e.j));
            EdgesRight(a, master, p, ids, if master(e.i, e.j) == p then edges[key := e.value] else edges, k + 1)
  {
    var e := a.entries[k];
    if master(e.i, e.j) == p {
      var x :| 0 <= x < |ids| && ids[x] == e.i;
      var y :| 0 <= y < |ids| && ids[y] == e.j;
      SearchFinds(ids, e.i, x);
      SearchFinds(ids, e.j, y);
      NextOwnEdge(a, master, p, ids, edges, k, x, y);
    } else {
      var n := k + 1;
      forall x: nat, y: nat | (x, y) in edges ensures Stands(a, master, p, ids, x, y, edges[(x, y)], n) {
        StandsNext(a, master, p, ids, x, y, edges[(x, y)], k);
      }
      forall x: nat, y: nat, value | Stands(a, master, p, ids, x, y, value, n)
        ensures (x, y) in edges && edges[(x, y)] == value
      {
        StandsNext(a, master, p, ids, x, y, value, k);
      }
    }
  }

  method CollectVertices(a: Matrix, master: Master, parts: nat) returns (vertices: Option<seq<set<nat>>>)
    requires WellFormed(a)
    ensures vertices.Some? <==> forall k | 0 <= k < |a.entries| :: 0 <= master(a.entries[k].i, a.entries[k].j) < parts
    ensures vertices.Some? ==>
              |vertices.value| == parts
              && forall p, v | 0 <= p < parts :: v in vertices.value[p] <==> Endpoint(a, master, p, v, |a.entries|)
  {
    var found: seq<set<nat>> := seq(parts, p => {});
    for k := 0 to |a.entries|
      invariant |found| == parts
      invariant forall l | 0 <= l < k :: 0 <= master(a.entries[l].i, a.entries[l].j) < parts
      invariant forall p, v | 0 <= p < parts :: v in found[p] <==> Endpoint(a, master, p, v, k)
    {
      var e := a.entries[k];
      var owner := master(e.i, e.j);
      if !(0 <= owner < parts) {
        return None;
      }
      found := found[owner := found[owner] + {e.i, e.j}];
    }
    return Some(found);
  }

  method BuildEdges(a: Matrix, master: Master, ids: seq<seq<nat>>) returns (edges: seq<map<Place, int>>)
    requires WellFormed(a) && forall k | 0 <= k < |a.entries| :: 0 <= master(a.entries[k].i, a.entries[k].j) < |ids|
    requires forall p | 0 <= p < |ids| :: Ascending(ids[p])
    requires forall p, v | 0 <= p < |ids| :: v in ids[p] <==> Endpoint(a, master, p, v, |a.entries|)
    ensures |edges| == |ids|
    ensures forall p | 0 <= p < |ids| :: EdgesRight(a, master, p, ids[p], edges[p], |a.entries|)
  {
    edges := seq(|ids|, p => map[]);
    for k := 0 to |a.entries|
      invariant |edges| == |ids|
      invariant forall p | 0 <= p < |ids| :: EdgesRight(a, master, p, ids[p], edges[p], k)
    {
      var e := a.entries[k];
      var owner := master(e.i, e.j);
      assert Endpoint(a, master, owner, e.i, |a.entries|) && Endpoint(a, master, owner, e.j, |a.entries|);
      forall p | 0 <= p < |ids|
        ensures var key := (SearchSorted(ids[p], e.i), SearchSorted(ids[p], e.j));
                EdgesRight(a, master, p, ids[p], if owner == p then edges[p][key := e.value] else edges[p], k + 1)
      {
        NextEdge(a, master, p, ids[p], edges[p], k);
      }
      edges := edges[owner := edges[owner][(SearchSorted(ids[owner], e.i), SearchSorted(ids[owner], e.j)) := e.value]];
    }
  }

  /** `partition`. It fails an assertion (`None`) exactly when the matrix is not square or a master is invalid. */
  method PartitionMatrix(a: Matrix, vertexMaster: nat -> int, master: Master, parts: nat)
    returns (r: Option<seq<Partition>>)
    requires WellFormed(a)
    ensures r.Some? <==> a.rows == a.columns && ValidMasters(a, vertexMaster, master, parts)
    ensures r.Some? ==> |r.value| == parts && Partitions(a, master, r.value)
    ensures r.Some? ==> forall p | 0 <= p < parts :: MastersRight(a, vertexMaster, r.value[p].vertexMasters)
  {
    if a.rows != a.columns {
      return None;
    }
    var masters: seq<int> := seq(a.rows, _ => -1);
    for v := 0 to a.rows
      invariant |masters| == a.rows
      invariant forall w | 0 <= w < v :: 0 <= vertexMaster(w) < parts && masters[w] == vertexMaster(w)
    {
      if !(0 <= vertexMaster(v) < parts) {
        return None;
      }
      masters := masters[v := vertexMaster(v)];
    }
    var vertices := CollectVertices(a, master, parts);
    if vertices.None? {
      return None;
    }
    var ids: seq<seq<nat>> := [];
    for p := 0 to parts
      invariant |ids| == p
      invariant forall q | 0 <= q < p :: Ascending(ids[q])
      invariant forall q, v | 0 <= q < p :: v in ids[q] <==> Endpoint(a, master, q, v, |a.entries|)
    {
      var sorted := Sorted(vertices.value[p]);
      ids := ids + [sorted];
    }
    var edges := BuildEdges(a, master, ids);
    return Some(seq(parts, p requires 0 <= p < parts && |edges| == |ids| == parts =>
      Partition(edges[p], ids[p], masters)));
  }

  // ---- reconstruction ----

  /** Partition `p` holds the entry at some local place. */
  ghost predicate HeldBy(parts: seq<Partition>, p: int, e: Entry, place: Place) {
    && 0 <= p < |parts| && place in parts[p].edges
    && place.0 < |parts[p].globalIds| && place.1 < |parts[p].globalIds|
    && e == Entry(parts[p].globalIds[place.0], parts[p].globalIds[place.1], parts[p].edges[place])
  }

  /** Mapping all local entries back through the global ids rebuilds the matrix: what some partition holds is an
      entry of it, and every entry is held by exactly one partition, its master's, at exactly one place. */
  lemma Reconstruction(a: Matrix, master: Master, parts: seq<Partition>, e: Entry)
    requires WellFormed(a) && Partitions(a, master, parts)
    requires forall k | 0 <= k < |a.entries| :: 0 <= master(a.entries[k].i, a.entries[k].j) < |parts|
    ensures e in a.entries <==> exists p, place :: HeldBy(parts, p, e, place)
    ensures forall p, place | HeldBy(parts, p, e, place) :: p == master(e.i, e.j)
    ensures forall p, place, q, other | HeldBy(parts, p, e, place) && HeldBy(parts, q, e, other) ::
            p == q && place == other
  {
    if e in a.entries {
      var p, place := EntryIsHeld(a, master, parts, e);
    }
    forall p, place | HeldBy(parts, p, e, place) ensures e in a.entries && p == master(e.i, e.j) {
      HeldIsEntry(a, master, parts, p, e, place);
    }
    forall p, place, q, other | HeldBy(parts, p, e, place) && HeldBy(parts, q, e, other)
      ensures p == q && place == other
    {
      HeldIsEntry(a, master, parts, p, e, place);
      HeldIsEntry(a, master, parts, q, e, other);
      OnePlace(parts[p].globalIds, place, other);
    }
  }

  lemma OnePlace(ids: seq<nat>, a: Place, b: Place)
    requires Ascending(ids) && a.0 < |ids| && a.1 < |ids| && b.0 < |ids| && b.1 < |ids|
    requires ids[a.0] == ids[b.0] && ids[a.1] == ids[b.1]
    ensures a == b
  {
  }

  lemma HeldIsEntry(a: Matrix, master: Master, parts: seq<Partition>, p: int, e: Entry, place: Place)
    requires WellFormed(a) && Partitions(a, master, parts) && HeldBy(parts, p, e, place)
    ensures e in a.entries && p == master(e.i, e.j)
  {
    var (x, y) := place;
    assert (x, y) in parts[p].edges;
    assert Stands(a, master, p, parts[p].globalIds, x, y, parts[p].edges[(x, y)], |a.entries|);
  }

  lemma EntryIsHeld(a: Matrix, master: Master, parts: seq<Partition>, e: Entry) returns (p: int, place: Place)
    requires WellFormed(a) && Partitions(a, master, parts) && e in a.entries
    requires 0 <= master(e.i, e.j) < |parts|
    ensures HeldBy(parts, p, e, place)
  {
    p := master(e.i, e.j);
    var ids := parts[p].globalIds;
    var k :| 0 <= k < |a.entries| && a.entries[k] == e;
    assert Endpoint(a, master, p, e.i, |a.entries|) && Endpoint(a, master, p, e.j, |a.entries|);
    var x :| 0 <= x < |ids| && ids[x] == e.i;
    var y :| 0 <= y < |ids| && ids[y] == e.j;
    assert Stands(a, master, p, ids, x, y, e.value, |a.entries|);
    place := (x, y);
  }
}
