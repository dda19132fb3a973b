/** The web application's copy of the solver. Its four helpers are the ones of
    `AntColony`; its `solve_tsp` also records the best length after every
    iteration and returns a report instead of a `Path`. */
module TspSolver {
  import opened Wrappers
  import opened Numerics
  import opened Geometry
  import opened AntColony

  /** The dictionary `solve_tsp` returns, without the chart image. */
  datatype Report = Report(optimalPath: seq<int>, distance: Length, iterations: int,
                           verticesCount: nat, vertices: seq<Coord>)

  /** The defaults of `solve_tsp_aco`: 10 ants, 100 iterations, alpha 1, beta 2,
      evaporation 0.5 and q 100. */
  const WrapperDefaults := Params(10, 100, 1.0, 2.0, 0.5, 100.0)

  /** What `solve_tsp` returns for these points and this randomness: the
      solution of the shared run, reported with the iteration count and the
      vertices. */
  ghost function ReportOf(p: Params, lib: MathLib, points: seq<Coord>, rnd: seq<seq<AntRandomness>>): Result<Report, SolveError>
    requires |points| >= 3 ==> Supplies(rnd, p, |points|)
  {
    match Solution(p, lib, points, rnd)
    case Failure(e) => Failure(e)
    case Success(path) => Success(Report(path.indices, path.length, p.iterations, |points|, points))
  }

  /** The number of tours built by the end of `it` iterations. */
  function Built(p: Params, it: nat): nat
  {
    it * Count(p.ants)
  }

  /** The convergence trace of a run: one entry per iteration, the entry of
      the k-th iteration being the best length over the tours built in the
      first k iterations, and never increasing. */
  ghost predicate RunningTrace(p: Params, convergence: seq<Length>, tours: seq<seq<int>>, lengths: seq<real>)
  {
    |convergence| == Count(p.iterations) && |tours| == |lengths| && NonIncreasing(convergence) &&
    forall k :: 1 <= k <= |convergence| ==>
      Built(p, k) <= |tours| &&
      convergence[k - 1] == BestSoFar(tours[..Built(p, k)], lengths[..Built(p, k)]).length
  }

  /** A trace of `BestAfter` entries of a run that succeeds is its running
      trace. */
  lemma RunTrace(p: Params, lib: MathLib, dist: seq<seq<real>>, rnd: seq<seq<AntRandomness>>, convergence: seq<Length>)
    requires Square(dist) && |dist| >= 1 && Supplies(rnd, p, |dist|)
    requires RunSpec(p, lib, dist, rnd, Count(p.iterations)).ok
    requires |convergence| == Count(p.iterations) && NonIncreasing(convergence)
    requires forall i :: 0 <= i < |convergence| ==> convergence[i] == BestAfter(p, lib, dist, rnd, i + 1)
    ensures var s := RunSpec(p, lib, dist, rnd, Count(p.iterations)); RunningTrace(p, convergence, s.tours, s.lengths)
  {
    var s := RunSpec(p, lib, dist, rnd, Count(p.iterations));
    forall k | 1 <= k <= |convergence|
      ensures Built(p, k) <= |s.tours|
      ensures convergence[k - 1] == BestSoFar(s.tours[..Built(p, k)], s.lengths[..Built(p, k)]).length
    {
      RunningBest(p, lib, dist, rnd, k);
    }
  }

  /** Everything `solve_tsp` promises about one call: the report is the one
      the run determines; it fails with the three-point error exactly when
      there are fewer than 3 points, and otherwise only when a tour has length
      0; the tours are the run's, each a closed tour paired with its length;
      a solved run builds `iterations * ants` tours, its trace holds, for each
      iteration, the best length over the tours built up to its end, never
      increases and ends at the reported distance; and with at least one ant
      and one iteration the reported path is the earliest shortest tour. */
  ghost predicate Solved(p: Params, lib: MathLib, points: seq<Coord>, rnd: seq<seq<AntRandomness>>,
                         result: Result<Report, SolveError>, convergence: seq<Length>,
                         tours: seq<seq<int>>, lengths: seq<real>)
    requires |points| >= 3 ==> Supplies(rnd, p, |points|)
  {
    var dist := DistanceTable(lib, points);
    result == ReportOf(p, lib, points, rnd) &&
    (result == Failure(TooFewPoints) <==> |points| < 3) &&
    (|points| >= 3 ==>
      var s := RunSpec(p, lib, dist, rnd, Count(p.iterations));
      tours == s.tours && lengths == s.lengths && Measured(dist, tours, lengths)) &&
    (result.Failure? && |points| >= 3 ==> result.error == ZeroLengthTour && !NoZeroLength(lengths)) &&
    (result.Success? ==>
      result.value.verticesCount == |points| && result.value.iterations == p.iterations &&
      result.value.vertices == points &&
      |tours| == Count(p.iterations) * Count(p.ants) && RunningTrace(p, convergence, tours, lengths) &&
      (|convergence| > 0 ==> convergence[|convergence| - 1] == result.value.distance)) &&
    (result.Success? && p.ants >= 1 && p.iterations >= 1 ==>
      IsClosedTour(result.value.optimalPath, |points|) && InRange(result.value.optimalPath, |points|) &&
      result.value.distance == Finite(PathSum(dist, result.value.optimalPath)) &&
      exists m :: IsEarliestMinimum(lengths, m) &&
        result.value.optimalPath == tours[m] && result.value.distance == Finite(lengths[m]))
  }

  /** `solve_tsp`: the three-point guard, the shared run, and the report. */
  method SolveTsp(p: Params, lib: MathLib, points: seq<Coord>, rnd: seq<seq<AntRandomness>>)
    returns (result: Result<Report, SolveError>, convergence: seq<Length>,
             ghost tours: seq<seq<int>>, ghost lengths: seq<real>)
    requires |points| >= 3 ==> Supplies(rnd, p, |points|)
    ensures Solved(p, lib, points, rnd, result, convergence, tours, lengths)
  {
    SolutionFacts(p, lib, points, rnd);
    if |points| < 3 {
      return Failure(TooFewPoints), [], [], [];
    }
    var outcome;
    outcome, convergence, tours, lengths := Run(p, lib, points, rnd);
    if outcome.Failure? {
      return Failure(outcome.error), convergence, tours, lengths;
    }
    RunTrace(p, lib, DistanceTable(lib, points), rnd, convergence);
    var best := outcome.value;
    result := Success(Report(best.indices, best.length, p.iterations, |points|, points));
  }

  /** `solve_tsp_aco`: solves with the parameters built from its arguments,
      `evaporation` as `rho` and the others unchanged. */
  method SolveTspAco(lib: MathLib, vertices: seq<Coord>, rnd: seq<seq<AntRandomness>>,
                     antCount: int := 10, iterations: int := 100, alpha: real := 1.0,
                     beta: real := 2.0, evaporation: real := 0.5, q: real := 100.0)
    returns (result: Result<Report, SolveError>, convergence: seq<Length>,
             ghost tours: seq<seq<int>>, ghost lengths: seq<real>)
    requires |vertices| >= 3 ==> Supplies(rnd, Params(antCount, iterations, alpha, beta, evaporation, q), |vertices|)
    ensures Solved(Params(antCount, iterations, alpha, beta, evaporation, q), lib, vertices, rnd,
                   result, convergence, tours, lengths)
  {
    var p := Params(ants := antCount, iterations := iterations, alpha := alpha, beta := beta, rho := evaporation, q := q);
    result, convergence, tours, lengths := SolveTsp(p, lib, vertices, rnd);
  }
}
