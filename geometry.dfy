/** Coordinates and the symmetric matrix of pairwise Euclidean distances that
    both the graph model and the ant-colony solver build from a point list. */
module Geometry {
  import opened Numerics

  /** A point as the `(x, y)` tuple the solver receives. */
  type Coord = (real, real)

  /** `sqrt(dx * dx + dy * dy)`. */
  function Euclidean(lib: MathLib, a: Coord, b: Coord): real
  {
    var dx := a.0 - b.0;
    var dy := a.1 - b.1;
    lib.sqrt(dx * dx + dy * dy)
  }

  /** Entry `(i, j)` of the matrix: 0 on the diagonal, otherwise the distance
      computed for the pair with the smaller index first. */
  function PairDistance(lib: MathLib, points: seq<Coord>, i: int, j: int): real
    requires 0 <= i < |points| && 0 <= j < |points|
  {
    if i == j then 0.0
    else if i < j then Euclidean(lib, points[i], points[j])
    else Euclidean(lib, points[j], points[i])
  }

  /** Every row of `m` is as long as `m` has rows. */
  predicate Square(m: seq<seq<real>>)
  {
    forall r :: 0 <= r < |m| ==> |m[r]| == |m|
  }

  /** The matrix the nested loops produce, as a value. */
  function DistanceTable(lib: MathLib, points: seq<Coord>): (d: seq<seq<real>>)
    ensures |d| == |points| && Square(d)
  {
    seq(|points|, i requires 0 <= i < |points| =>
      seq(|points|, j requires 0 <= j < |points| => PairDistance(lib, points, i, j)))
  }

  /** The table is symmetric, has a zero diagonal, and holds the Euclidean
      distance of every pair of distinct points. */
  lemma DistanceTableIsMetricShaped(lib: MathLib, points: seq<Coord>)
    ensures forall i, j :: 0 <= i < |points| && 0 <= j < |points| ==>
      DistanceTable(lib, points)[i][j] == DistanceTable(lib, points)[j][i]
    ensures forall i :: 0 <= i < |points| ==> DistanceTable(lib, points)[i][i] == 0.0
    ensures forall i, j :: 0 <= i < j < |points| ==>
      DistanceTable(lib, points)[i][j] == Euclidean(lib, points[i], points[j])
  {
  }

  /** The nested loops of `solve_tsp` and `_update_distance_matrix`: start from
      an n-by-n matrix of zeros and fill both `[i][j]` and `[j][i]` for i < j. */
  method DistanceMatrix(lib: MathLib, points: seq<Coord>) returns (d: seq<seq<real>>)
    ensures d == DistanceTable(lib, points)
  {
    var n := |points|;
    d := seq(n, _ => seq(n, _ => 0.0));
    for i := 0 to n
      invariant |d| == n && Square(d)
      invariant forall r, c :: 0 <= r < n && 0 <= c < n ==>
        d[r][c] == (if r < i || c < i then PairDistance(lib, points, r, c) else 0.0)
    {
      for j := i + 1 to n
        invariant |d| == n && Square(d)
        invariant forall r, c :: 0 <= r < n && 0 <= c < n ==>
          d[r][c] == (if r < i || c < i || (r == i && i < c < j) || (c == i && i < r < j)
                      then PairDistance(lib, points, r, c) else 0.0)
      {
        var distance := Euclidean(lib, points[i], points[j]);
        d := d[i := d[i][j := distance]];
        d := d[j := d[j][i := distance]];
      }
    }
    forall r | 0 <= r < n
      ensures d[r] == DistanceTable(lib, points)[r]
    {
      assert forall c :: 0 <= c < n ==> d[r][c] == DistanceTable(lib, points)[r][c];
    }
  }
}
