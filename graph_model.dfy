/** The graph the desktop application edits: points in the plane, undirected
    edges between them, and the distance matrix kept up to date as points are
    added. */
module Graph {
  import opened Wrappers
  import opened Numerics
  import opened Geometry

  datatype Point = Point(x: real, y: real)
  {
    /** `distance_to`: the Euclidean distance to another point. */
    function DistanceTo(lib: MathLib, other: Point): real
    {
      Euclidean(lib, (x, y), (other.x, other.y))
    }
  }

  /** `Point.__eq__`: two points are equal when both coordinates are. */
  function PointsEqual(a: Point, b: Point): (r: bool)
    ensures r <==> a == b
    ensures r ==> PointsEqual(b, a)
  {
    a.x == b.x && a.y == b.y
  }

  /** The coordinate pairs of the points, in order. */
  function Coords(points: seq<Point>): (c: seq<Coord>)
    ensures |c| == |points|
    ensures forall k :: 0 <= k < |points| ==> c[k] == (points[k].x, points[k].y)
  {
    seq(|points|, k requires 0 <= k < |points| => (points[k].x, points[k].y))
  }

  /** The stored form of an edge: smaller index first. */
  function NormalEdge(i: int, j: int): (e: (int, int))
    ensures e.0 <= e.1 && {e.0, e.1} == {i, j}
  {
    if i <= j then (i, j) else (j, i)
  }

  /** Edges of a graph on n points: each (a, b) has 0 <= a < b < n, and none is stored twice. */
  predicate EdgesValid(edges: seq<(int, int)>, n: int)
  {
    (forall k :: 0 <= k < |edges| ==> 0 <= edges[k].0 < edges[k].1 < n) &&
    (forall k, l :: 0 <= k < l < |edges| ==> edges[k] != edges[l])
  }

  /** What `add_edge(i, j)` leaves in the edge list: nothing changes for an
      index outside the points or for a loop; otherwise the normalised pair is
      appended unless it is already there. */
  function WithEdge(edges: seq<(int, int)>, n: int, i: int, j: int): (r: seq<(int, int)>)
    ensures !(0 <= i < n && 0 <= j < n && i != j) ==> r == edges
    ensures 0 <= i < n && 0 <= j < n && i != j ==>
      NormalEdge(i, j) in r && (forall e :: e in r <==> e in edges || e == NormalEdge(i, j))
    ensures |edges| <= |r| <= |edges| + 1 && r[..|edges|] == edges
  {
    if i < 0 || i >= n || j < 0 || j >= n then edges
    else if i == j then edges
    else
      var e := NormalEdge(i, j);
      if e in edges then edges else edges + [e]
  }

  /** Adding (i, j) and adding (j, i) have the same effect. */
  lemma WithEdgeIgnoresOrientation(edges: seq<(int, int)>, n: int, i: int, j: int)
    ensures WithEdge(edges, n, i, j) == WithEdge(edges, n, j, i)
  {
    assert NormalEdge(i, j) == NormalEdge(j, i);
  }

  /** Re-adding an edge, in either orientation, leaves a single copy. */
  lemma WithEdgeIdempotent(edges: seq<(int, int)>, n: int, i: int, j: int)
    ensures WithEdge(WithEdge(edges, n, i, j), n, i, j) == WithEdge(edges, n, i, j)
    ensures WithEdge(WithEdge(edges, n, i, j), n, j, i) == WithEdge(edges, n, i, j)
  {
    WithEdgeIgnoresOrientation(WithEdge(edges, n, i, j), n, i, j);
  }

  /** Adding an edge keeps the edge list of the graph valid. */
  lemma WithEdgeKeepsValid(edges: seq<(int, int)>, n: int, i: int, j: int)
    requires EdgesValid(edges, n)
    ensures EdgesValid(WithEdge(edges, n, i, j), n)
  {
    var r := WithEdge(edges, n, i, j);
    if |r| > |edges| {
      forall k, l | 0 <= k < l < |r|
        ensures r[k] != r[l]
      {
        if l == |edges| {
          assert r[k] == edges[k];
        }
      }
    }
  }

  /** The distance between two points does not depend on their order. */
  lemma DistanceToSymmetric(lib: MathLib, a: Point, b: Point)
    ensures a.DistanceTo(lib, b) == b.DistanceTo(lib, a)
  {
    assert (a.x - b.x) * (a.x - b.x) == (b.x - a.x) * (b.x - a.x);
    assert (a.y - b.y) * (a.y - b.y) == (b.y - a.y) * (b.y - a.y);
  }

  /** Every entry of the distance matrix of the points is `distance_to` between
      the two points, in either order, and 0 on the diagonal. */
  lemma DistanceTableUsesDistanceTo(lib: MathLib, points: seq<Point>)
    ensures forall i, j :: 0 <= i < |points| && 0 <= j < |points| && i != j ==>
      DistanceTable(lib, Coords(points))[i][j] == points[i].DistanceTo(lib, points[j])
    ensures forall i :: 0 <= i < |points| ==> DistanceTable(lib, Coords(points))[i][i] == 0.0
  {
    forall i, j | 0 <= i < |points| && 0 <= j < |points| && i != j
      ensures DistanceTable(lib, Coords(points))[i][j] == points[i].DistanceTo(lib, points[j])
    {
      DistanceToSymmetric(lib, points[i], points[j]);
    }
  }

  /** The graph container: its points, its edges, and the distance matrix. */
  class GraphModel {
    const lib: MathLib
    var points: seq<Point>
    var edges: seq<(int, int)>
    var distanceMatrix: Option<seq<seq<real>>>

    /** The distance matrix is absent only for an empty graph and otherwise
        matches the points; the edges are valid for them. */
    ghost predicate Valid()
      reads this
    {
      (distanceMatrix.None? ==> points == []) &&
      (distanceMatrix.Some? ==> distanceMatrix.value == DistanceTable(lib, Coords(points))) &&
      EdgesValid(edges, |points|)
    }

    constructor(lib: MathLib)
      ensures this.lib == lib && Valid()
      ensures points == [] && edges == [] && distanceMatrix == None
    {
      this.lib := lib;
      points := [];
      edges := [];
      distanceMatrix := None;
    }

    /** `get_points`: the coordinates of the points in insertion order. */
    function GetPoints(): (r: seq<Coord>)
      reads this
      ensures |r| == |points| && forall k :: 0 <= k < |r| ==> r[k] == (points[k].x, points[k].y)
    {
      Coords(points)
    }

    /** `_update_distance_matrix`: rebuild the matrix from the current points. */
    method UpdateDistanceMatrix()
      modifies this
      ensures points == old(points) && edges == old(edges)
      ensures distanceMatrix == Some(DistanceTable(lib, Coords(points)))
    {
      var m := DistanceMatrix(lib, Coords(points));
      distanceMatrix := Some(m);
    }

    /** `add_point`: append the point, rebuild the matrix and return the new
        point's index, which is the previous number of points. */
    method AddPoint(x: real, y: real) returns (index: int)
      requires Valid()
      modifies this
      ensures Valid()
      ensures index == |old(points)|
      ensures points == old(points) + [Point(x, y)] && edges == old(edges)
      ensures GetPoints() == old(GetPoints()) + [(x, y)]
      ensures distanceMatrix.Some? && |distanceMatrix.value| == |points| && Square(distanceMatrix.value)
      ensures forall i, j :: 0 <= i < |points| && 0 <= j < |points| ==>
        distanceMatrix.value[i][j] == distanceMatrix.value[j][i] && distanceMatrix.value[i][i] == 0.0
    {
      points := points + [Point(x, y)];
      UpdateDistanceMatrix();
      DistanceTableIsMetricShaped(lib, Coords(points));
      assert Coords(points) == Coords(old(points)) + [(x, y)];
      index := |points| - 1;
    }

    /** `add_edge`: reject indices outside the points and loops, store the pair
        smaller index first, and never store it twice. */
    method AddEdge(i: int, j: int)
      requires Valid()
      modifies this
      ensures Valid()
      ensures edges == WithEdge(old(edges), |points|, i, j)
      ensures points == old(points) && distanceMatrix == old(distanceMatrix)
    {
      WithEdgeKeepsValid(edges, |points|, i, j);
      if i < 0 || i >= |points| || j < 0 || j >= |points| {
        return;
      }
      if i != j {
        var edge := (if i < j then i else j, if i < j then j else i);
        if edge !in edges {
          edges := edges + [edge];
        }
      }
    }

    /** `clear`: remove every point and edge and drop the matrix. */
    method Clear()
      modifies this
      ensures Valid()
      ensures points == [] && edges == [] && distanceMatrix == None
    {
      points := [];
      edges := [];
      distanceMatrix := None;
    }
  }
}
