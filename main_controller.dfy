/** The desktop application's controller: the click handling state machine
    (adding points, selecting two points to join), the nearest-point search,
    and the guards in front of the model and the solver. Calls on the window
    are recorded in a log instead of being drawn. */
module Controller {
  import opened Wrappers
  import opened Numerics
  import opened Geometry
  import opened Graph
  import AntColony

  /** `"add_points"` and `"add_edges"`. */
  datatype Mode = AddPoints | AddEdges

  /** What the results panel is told. */
  datatype Status =
    | PointCreated(id: Option<int>)
    | PointSelected(selected: int)
    | SelectionCancelled
    | EdgeCreated(first: int, second: int)
    | EdgeModeOn
    | PointModeOn
    | GraphCleared
    | SolutionFound(pointsCount: nat, length: Length, indices: seq<int>)

  /** What an error dialog reports. */
  datatype Problem = TooClose(x: real, y: real, existing: int) | TooFewPointsToSolve | SolveFailed

  /** A call on the window. */
  datatype ViewCall =
    | UpdateResults(status: Status)
    | ShowError(problem: Problem)
    | HighlightPoint(point: int)
    | UnhighlightPoint(point: int)
    | AddPointToView(x: real, y: real)
    | AddEdgeToView(from: int, to: int)
    | ClearGraphView
    | DrawSolution(indices: seq<int>)

  /** The default `max_distance` of the nearest-point search. */
  const MaxClickDistance: real := 20.0

  /** The least distance a new point must keep from every existing one. */
  const MinSeparation: real := 20.0

  /** `((point.x - x) ** 2 + (point.y - y) ** 2) ** 0.5`. */
  function ClickDistance(lib: MathLib, p: Point, x: real, y: real): real
  {
    lib.pow((p.x - x) * (p.x - x) + (p.y - y) * (p.y - y), 0.5)
  }

  /** The answer of the nearest-point search: none when no point lies within
      `maxDistance`, otherwise the closest such point, the first one on ties. */
  ghost predicate IsNearest(lib: MathLib, points: seq<Point>, x: real, y: real, maxDistance: real, r: Option<int>)
  {
    match r
    case None =>
      forall k :: 0 <= k < |points| ==> ClickDistance(lib, points[k], x, y) > maxDistance
    case Some(m) =>
      0 <= m < |points| && ClickDistance(lib, points[m], x, y) <= maxDistance &&
      (forall k :: 0 <= k < |points| && ClickDistance(lib, points[k], x, y) <= maxDistance ==>
         ClickDistance(lib, points[m], x, y) <= ClickDistance(lib, points[k], x, y)) &&
      (forall k :: 0 <= k < m && ClickDistance(lib, points[k], x, y) <= maxDistance ==>
         ClickDistance(lib, points[m], x, y) < ClickDistance(lib, points[k], x, y))
  }

  /** The nearest-point answer is determined by the points and the click. */
  lemma NearestIsUnique(lib: MathLib, points: seq<Point>, x: real, y: real, maxDistance: real, r1: Option<int>, r2: Option<int>)
    requires IsNearest(lib, points, x, y, maxDistance, r1) && IsNearest(lib, points, x, y, maxDistance, r2)
    ensures r1 == r2
  {
    if r1.Some? && r2.Some? {
      var d1 := ClickDistance(lib, points[r1.value], x, y);
      var d2 := ClickDistance(lib, points[r2.value], x, y);
      assert d1 <= d2 && d2 <= d1;
    }
  }

  /** k is the first existing point closer than the minimum separation. */
  ghost predicate FirstTooClose(lib: MathLib, points: seq<Point>, x: real, y: real, k: int)
  {
    0 <= k < |points| && ClickDistance(lib, points[k], x, y) < MinSeparation &&
    forall j :: 0 <= j < k ==> ClickDistance(lib, points[j], x, y) >= MinSeparation
  }

  class MainController {
    const model: GraphModel
    var selectedPoint: Option<int>
    var mode: Mode
    var viewLog: seq<ViewCall>

    ghost predicate Valid()
      reads this, model
    {
      model.Valid()
    }

    /** A new controller: an empty graph, no selection, point mode. */
    constructor(lib: MathLib)
      ensures Valid() && fresh(model) && model.lib == lib
      ensures model.points == [] && model.edges == [] && model.distanceMatrix == None
      ensures selectedPoint == None && mode == AddPoints && viewLog == []
    {
      model := new GraphModel(lib);
      selectedPoint := None;
      mode := AddPoints;
      viewLog := [];
    }

    /** `find_nearest_point`: scan the points, keeping the strictly closest one
        within `maxDistance`. */
    method FindNearestPoint(x: real, y: real, maxDistance: real := MaxClickDistance) returns (nearest: Option<int>)
      ensures IsNearest(model.lib, model.points, x, y, maxDistance, nearest)
    {
      var points := model.points;
      if |points| == 0 {
        return None;
      }
      var minDistance := Infinite;
      nearest := None;
      for i := 0 to |points|
        invariant nearest.None? ==>
          minDistance == Infinite &&
          forall k :: 0 <= k < i ==> ClickDistance(model.lib, points[k], x, y) > maxDistance
        invariant nearest.Some? ==>
          0 <= nearest.value < i &&
          minDistance == Finite(ClickDistance(model.lib, points[nearest.value], x, y)) &&
          ClickDistance(model.lib, points[nearest.value], x, y) <= maxDistance &&
          (forall k :: 0 <= k < i && ClickDistance(model.lib, points[k], x, y) <= maxDistance ==>
             ClickDistance(model.lib, points[nearest.value], x, y) <= ClickDistance(model.lib, points[k], x, y)) &&
          (forall k :: 0 <= k < nearest.value && ClickDistance(model.lib, points[k], x, y) <= maxDistance ==>
             ClickDistance(model.lib, points[nearest.value], x, y) < ClickDistance(model.lib, points[k], x, y))
      {
        var point := points[i];
        var distance := ClickDistance(model.lib, point, x, y);
        if Finite(distance).Less(minDistance) && distance <= maxDistance {
          minDistance := Finite(distance);
          nearest := Some(i);
        }
      }
    }

    /** `handle_point_selection`: the first click selects, a click on the
        selected point cancels, and a click on another point joins the two. */
    method HandlePointSelection(pointId: int)
      requires Valid()
      modifies this, model
      ensures Valid() && mode == old(mode)
      ensures old(selectedPoint).None? ==>
        selectedPoint == Some(pointId) && unchanged(model) &&
        viewLog == old(viewLog) + [HighlightPoint(pointId), UpdateResults(PointSelected(pointId))]
      ensures old(selectedPoint) == Some(pointId) ==>
        selectedPoint == None && unchanged(model) &&
        viewLog == old(viewLog) + [UnhighlightPoint(pointId), UpdateResults(SelectionCancelled)]
      ensures old(selectedPoint).Some? && old(selectedPoint).value != pointId ==>
        var first := old(selectedPoint).value;
        selectedPoint == None &&
        model.edges == WithEdge(old(model.edges), |model.points|, first, pointId) &&
        model.points == old(model.points) && model.distanceMatrix == old(model.distanceMatrix) &&
        viewLog == old(viewLog) + [UnhighlightPoint(first), AddEdgeToView(first, pointId),
                                   UpdateResults(EdgeCreated(first, pointId))]
    {
      if selectedPoint.None? {
        selectedPoint := Some(pointId);
        viewLog := viewLog + [HighlightPoint(pointId), UpdateResults(PointSelected(pointId))];
      } else if selectedPoint.value == pointId {
        viewLog := viewLog + [UnhighlightPoint(pointId)];
        selectedPoint := None;
        viewLog := viewLog + [UpdateResults(SelectionCancelled)];
      } else {
        var firstPoint := selectedPoint.value;
        var secondPoint := pointId;
        viewLog := viewLog + [UnhighlightPoint(firstPoint)];
        selectedPoint := None;
        AddEdge(firstPoint, secondPoint);
        viewLog := viewLog + [UpdateResults(EdgeCreated(firstPoint, secondPoint))];
      }
    }

    /** `switch_to_edge_mode`. */
    method SwitchToEdgeMode()
      modifies this
      ensures mode == AddEdges && selectedPoint == None
      ensures viewLog == old(viewLog) + [UpdateResults(EdgeModeOn)]
    {
      mode := AddEdges;
      selectedPoint := None;
      viewLog := viewLog + [UpdateResults(EdgeModeOn)];
    }

    /** `switch_to_point_mode`. */
    method SwitchToPointMode()
      modifies this
      ensures mode == AddPoints && selectedPoint == None
      ensures viewLog == old(viewLog) + [UpdateResults(PointModeOn)]
    {
      mode := AddPoints;
      selectedPoint := None;
      viewLog := viewLog + [UpdateResults(PointModeOn)];
    }

    /** `add_point`: refuse a point closer than 20 to an existing one, reporting
        the first such point; otherwise add it to the model and the window. */
    method AddPoint(x: real, y: real) returns (pointId: Option<int>)
      requires Valid()
      modifies this, model
      ensures Valid() && selectedPoint == old(selectedPoint) && mode == old(mode)
      ensures pointId.None? <==>
        exists k :: 0 <= k < |old(model.points)| && ClickDistance(model.lib, old(model.points)[k], x, y) < MinSeparation
      ensures pointId.None? ==>
        unchanged(model) &&
        exists k :: FirstTooClose(model.lib, model.points, x, y, k) &&
          viewLog == old(viewLog) + [ShowError(TooClose(x, y, k))]
      ensures pointId.Some? ==>
        pointId.value == |old(model.points)| &&
        model.points == old(model.points) + [Point(x, y)] && model.edges == old(model.edges) &&
        viewLog == old(viewLog) + [AddPointToView(x, y)]
    {
      var points := model.points;
      for i := 0 to |points|
        invariant forall j :: 0 <= j < i ==> ClickDistance(model.lib, points[j], x, y) >= MinSeparation
      {
        var existing := points[i];
        var distance := ClickDistance(model.lib, existing, x, y);
        if distance < 20.0 {
          viewLog := viewLog + [ShowError(TooClose(x, y, i))];
          assert FirstTooClose(model.lib, model.points, x, y, i);
          return None;
        }
      }
      var index := model.AddPoint(x, y);
      viewLog := viewLog + [AddPointToView(x, y)];
      return Some(index);
    }

    /** `add_edge`: a loop never reaches the model or the window. */
    method AddEdge(i: int, j: int)
      requires Valid()
      modifies this, model
      ensures Valid() && selectedPoint == old(selectedPoint) && mode == old(mode)
      ensures i == j ==> unchanged(model) && viewLog == old(viewLog)
      ensures i != j ==>
        model.edges == WithEdge(old(model.edges), |model.points|, i, j) &&
        model.points == old(model.points) && model.distanceMatrix == old(model.distanceMatrix) &&
        viewLog == old(viewLog) + [AddEdgeToView(i, j)]
    {
      if i != j {
        model.AddEdge(i, j);
        viewLog := viewLog + [AddEdgeToView(i, j)];
      }
    }

    /** `clear_graph`: empty the model and the window and go back to point mode. */
    method ClearGraph()
      requires Valid()
      modifies this, model
      ensures Valid()
      ensures model.points == [] && model.edges == [] && model.distanceMatrix == None
      ensures selectedPoint == None && mode == AddPoints
      ensures viewLog == old(viewLog) + [ClearGraphView, UpdateResults(PointModeOn), UpdateResults(GraphCleared)]
    {
      model.Clear();
      viewLog := viewLog + [ClearGraphView];
      selectedPoint := None;
      SwitchToPointMode();
      viewLog := viewLog + [UpdateResults(GraphCleared)];
    }

    /** `solve_tsp`: with fewer than 3 points only an error is shown; otherwise
        the solver runs on the model's points and the solution is drawn. The
        solution is the solver's for these points, with every tour it built. */
    method SolveTsp(params: AntColony.Params, rnd: seq<seq<AntColony.AntRandomness>>)
      returns (ghost solution: Result<AntColony.Path, AntColony.SolveError>,
               ghost tours: seq<seq<int>>, ghost lengths: seq<real>)
      requires Valid()
      requires |model.points| >= 3 ==> AntColony.Supplies(rnd, params, |model.points|)
      modifies this
      ensures Valid() && unchanged(model) && selectedPoint == old(selectedPoint) && mode == old(mode)
      ensures solution == AntColony.Solution(params, model.lib, Coords(model.points), rnd)
      ensures |model.points| >= 3 ==>
        var dist := DistanceTable(model.lib, Coords(model.points));
        var s := AntColony.RunSpec(params, model.lib, dist, rnd, Count(params.iterations));
        tours == s.tours && lengths == s.lengths && AntColony.Measured(dist, tours, lengths)
      ensures solution.Success? ==> |tours| == Count(params.iterations) * Count(params.ants)
      ensures |model.points| < 3 ==> viewLog == old(viewLog) + [ShowError(TooFewPointsToSolve)]
      ensures |model.points| >= 3 && solution.Failure? ==> viewLog == old(viewLog) + [ShowError(SolveFailed)]
      ensures |model.points| >= 3 && solution.Success? ==>
        viewLog == old(viewLog) + [DrawSolution(solution.value.indices),
          UpdateResults(SolutionFound(|model.points|, solution.value.length, solution.value.indices))]
      ensures solution.Success? && params.ants >= 1 && params.iterations >= 1 ==>
        AntColony.IsClosedTour(solution.value.indices, |model.points|) &&
        AntColony.InRange(solution.value.indices, |model.points|) &&
        solution.value.length == Finite(AntColony.PathSum(DistanceTable(model.lib, Coords(model.points)), solution.value.indices)) &&
        exists m :: AntColony.IsEarliestMinimum(lengths, m) &&
          solution.value.indices == tours[m] && solution.value.length == Finite(lengths[m])
    {
      if |model.points| < 3 {
        viewLog := viewLog + [ShowError(TooFewPointsToSolve)];
        return Failure(AntColony.TooFewPoints), [], [];
      }
      var points := model.GetPoints();
      var result;
      result, tours, lengths := AntColony.SolveTsp(params, model.lib, points, rnd);
      solution := result;
      if result.Failure? {
        viewLog := viewLog + [ShowError(SolveFailed)];
        return;
      }
      viewLog := viewLog + [DrawSolution(result.value.indices)];
      viewLog := viewLog + [UpdateResults(SolutionFound(|points|, result.value.length, result.value.indices))];
    }

    /** `handle_graph_click`: in point mode add a point and report it; in edge
        mode pass the nearest point within 20, if any, to the selection. */
    method HandleGraphClick(x: real, y: real)
      requires Valid()
      modifies this, model
      ensures Valid() && mode == old(mode)
      ensures old(mode) == AddPoints ==>
        selectedPoint == old(selectedPoint) && |viewLog| > |old(viewLog)| &&
        ((forall k :: 0 <= k < |old(model.points)| ==> ClickDistance(model.lib, old(model.points)[k], x, y) >= MinSeparation) ==>
           model.points == old(model.points) + [Point(x, y)] && model.edges == old(model.edges) &&
           viewLog == old(viewLog) + [AddPointToView(x, y), UpdateResults(PointCreated(Some(|old(model.points)|)))]) &&
        ((exists k :: 0 <= k < |old(model.points)| && ClickDistance(model.lib, old(model.points)[k], x, y) < MinSeparation) ==>
           unchanged(model) &&
           exists k :: FirstTooClose(model.lib, model.points, x, y, k) &&
             viewLog == old(viewLog) + [ShowError(TooClose(x, y, k)), UpdateResults(PointCreated(None))])
      ensures old(mode) == AddEdges ==>
        exists r :: IsNearest(model.lib, old(model.points), x, y, MaxClickDistance, r) &&
          (r.None? ==> unchanged(model) && selectedPoint == old(selectedPoint) && viewLog == old(viewLog)) &&
          (r.Some? && old(selectedPoint).None? ==>
             selectedPoint == r && unchanged(model) &&
             viewLog == old(viewLog) + [HighlightPoint(r.value), UpdateResults(PointSelected(r.value))]) &&
          (r.Some? && old(selectedPoint) == r ==>
             selectedPoint == None && unchanged(model) &&
             viewLog == old(viewLog) + [UnhighlightPoint(r.value), UpdateResults(SelectionCancelled)]) &&
          (r.Some? && old(selectedPoint).Some? && old(selectedPoint) != r ==>
             var first := old(selectedPoint).value;
             selectedPoint == None &&
             model.edges == WithEdge(old(model.edges), |model.points|, first, r.value) &&
             model.points == old(model.points) && model.distanceMatrix == old(model.distanceMatrix) &&
             viewLog == old(viewLog) + [UnhighlightPoint(first), AddEdgeToView(first, r.value),
                                        UpdateResults(EdgeCreated(first, r.value))])
    {
      if mode == AddPoints {
        var pointId := AddPoint(x, y);
        viewLog := viewLog + [UpdateResults(PointCreated(pointId))];
      } else {
        var pointId := FindNearestPoint(x, y);
        if pointId.Some? {
          HandlePointSelection(pointId.value);
        }
      }
    }
  }
}
