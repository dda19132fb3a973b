# theory-of-algorithms in Dafny

This project models the algorithmic parts of the repository. It has one
larger subsystem and six small exercises.

The subsystem is the travelling salesman application from the course work:
- the ant colony optimisation heuristic (`ACOAlgorithm`), as the desktop
  application and the web application each carry it;
- the graph container (`GraphModel`);
- the desktop application's controller (`MainController`).

The exercises are:
- the library bookkeeping of lab 2 (`Book`, `Reader`, `Subscription`);
- the sleep record validation of lab 3;
- the generators of lab 4: random notes, multiples of three, e-mail
  validation, and the chunk sizes of the threaded note generators;
- the flower set exercise of lab 1.

Modules and files:

- `AntColony` (`aco.dfy`) models the algorithm object:
  - weighted selection of the next city;
  - tour construction, by popping from the unvisited list;
  - path length;
  - the in-place pheromone update on an `array2<real>`;
  - the solve loop that keeps the earliest shortest tour.

  Randomness is data. Each ant gets an `AntRandomness` value holding the
  order `shuffle` produced and the values `random()` returned.
- `TspSolver` (`tsp_solver.dfy`) models the web application's copy. Its
  helpers are identical to those of `AntColony` and are reused. Its
  `solve_tsp` adds the convergence trace and returns a report, and
  `solve_tsp_aco` maps the parameters.
- `Geometry` (`geometry.dfy`) has the distance matrix both solvers build and
  `GraphModel` keeps.
- `Graph` (`graph_model.dfy`) has the points, edge normalisation and
  de-duplication, and the `GraphModel` class.
- `Controller` (`main_controller.dfy`) has the `MainController` class. Its
  fields are `mode` and `selected_point`. The Qt view becomes a log of the
  calls made on it (`viewLog`).
- `Library` (`library.dfy`) has three classes:
  - `Book`, with its page counter;
  - `Reader`, whose `books_in_progress` dictionary becomes an
    insertion-ordered `seq<Book>` plus a `map<Book, int>`;
  - `Subscription`.

  Times are integer microseconds, and "now" is a parameter.
- `Sleep` (`sleep.dfy`) has the `SleepRecord` constructor and its
  validation. Dates are day numbers, and "today" is a parameter.
- `Generators` (`generators.dfy`) has:
  - the note generator, with the picks of `random.choice` as data;
  - the first `count` values of `multiples_of_three`;
  - `validate_emails`, with Python's `str.strip` and the pattern
    `^[a-zA-Z0-9_]+@[a-zA-Z0-9_]+\.[a-zA-Z0-9_]+$` defined as functions;
  - the chunk split.
- `Garden` (`garden.dfy`) has the set algebra of `flowers()`.
- `Numerics` and `Wrappers` hold shared definitions:
  - the floating-point library (`sqrt`, `**`), passed as a `MathLib` value;
  - the length type `Length`, which is `Finite(real)` or `Infinite`, for
    `float('inf')`;
  - `Option` and `Result`.

## Model

| member | source | states |
|---|---|---|
| AntColony.ChoiceFacts | course_work/models/aco_algorithm.py:26-43 | `_select_index` answers -1 only on an empty list, and otherwise an index of the list. When every weight is zero it answers the last index. Otherwise it answers the first index whose cumulative normalised weight reaches the draw, and the last index when none does. |
| AntColony.ChoiceReachesDraw | course_work/models/aco_algorithm.py:33-43 | With a non-zero sum and a draw of at most 1, the cumulative weight at the chosen index reaches the draw. The fallback is needed only for rounding drift. |
| AntColony.NormalizedPrefixIsRatio | course_work/models/aco_algorithm.py:37-40 | The running `prob` after m steps is the sum of the first m weights divided by the total. |
| AntColony.SelectIndex | course_work/models/aco_algorithm.py:26-43 | The loop returns exactly the weighted choice that `ChoiceFacts` characterises. |
| AntColony.Weights | course_work/models/aco_algorithm.py:61-71 | The selection list has one weight per unvisited city. |
| AntColony.WeightsEntries | course_work/models/aco_algorithm.py:61-71 | Entry k of the selection list is `pheromone[i][j] ** alpha * (1 / max(dist[i][j], 10 ** -5)) ** beta` for the k-th unvisited city j. |
| AntColony.SelectionWeights | course_work/models/aco_algorithm.py:61-71 | The inner loop over the unvisited cities builds exactly the selection list `Weights`. |
| AntColony.TourStep | course_work/models/aco_algorithm.py:58-77 | One pass of the construction loop selects an index of the unvisited list with the next draw, and the construction goes on from that city moved to the end of the visited list. |
| AntColony.TourFromShape | course_work/models/aco_algorithm.py:58-77 | The construction keeps the visited list as a prefix, adds exactly one city per unvisited one, and stays in range. |
| AntColony.TourFromContents | course_work/models/aco_algorithm.py:58-77 | The construction ends holding the visited cities plus every unvisited city, each exactly once. |
| AntColony.TourFacts | course_work/models/aco_algorithm.py:46-79 | Whatever the draws, the specification `Tour` is a closed tour over 0..n-1 that starts at the city popped from the end of the shuffled order. |
| AntColony.MoveOne | course_work/models/aco_algorithm.py:58-77 | One step moves the selected city from the unvisited list to the end of the visited list, keeping the start. The two lists together keep their multiset of cities, both stay in range, and the construction `TourFrom` goes on from the new lists with the remaining draws. |
| AntColony.CreatePath | course_work/models/aco_algorithm.py:46-79 | The path equals the specification `Tour` for the given order and draws. On an n×n matrix with n ≥ 1 it is a closed tour: n + 1 indices, first equal to last, the first n a permutation of 0..n-1. It starts at the last city of the shuffled order. |
| AntColony.ClosedTourVisitsEachCityOnce | course_work/models/aco_algorithm.py:73-79 | In a closed tour every city 0..n-1 occurs exactly once before the return to the start. |
| AntColony.PermutationFacts | course_work/models/aco_algorithm.py:52-55 | A permutation of `range(n)` has length n, holds only indices below n, and holds each of them once. |
| AntColony.IsOrderIsPermutation | course_work/models/aco_algorithm.py:51-53 | The shuffled list is exactly a permutation of `range(n)`. |
| AntColony.CalculatePathLength | course_work/models/aco_algorithm.py:104-111 | The accumulated length equals `PathSum`, the sum of `D[p[k]][p[k+1]]` over consecutive pairs. |
| AntColony.PathSumIsSumOfEdges | course_work/models/aco_algorithm.py:104-111 | The path sum is the sum of the list of edge lengths, which has one entry fewer than the path. |
| AntColony.PathLengthExamples | course_work/models/aco_algorithm.py:104-111 | On the 3-city test matrix: length 45 for [0,1,2,0], 30 for [0,1,2], and 0 for any path shorter than 2. |
| AntColony.Evaporate | course_work/models/aco_algorithm.py:87-89 | Every entry of the pheromone matrix is multiplied by 1 - rho, in place. |
| AntColony.Reinforce | course_work/models/aco_algorithm.py:92-101 | One ant's path adds `delta` to both directions of each of its edges, once per occurrence. |
| AntColony.UpdatePheromone | course_work/models/aco_algorithm.py:82-101 | Each entry becomes (1 - rho)·old plus q/length for every occurrence of the edge, in either direction, in the first `ants` paths. A symmetric entry pair stays symmetric. With 0 ≤ rho ≤ 1, q ≥ 0 and positive lengths, non-negative entries stay non-negative. |
| AntColony.UpdatePheromoneRows | course_work/models/aco_algorithm.py:82-101 | The pheromone rows become `Updated` of the old ones: evaporated by `1 - rho`, plus the deposit of every tour of the iteration. |
| AntColony.EdgeDepositSymmetric | course_work/models/aco_algorithm.py:92-101 | One path deposits as much on (a, b) as on (b, a). |
| AntColony.EdgeDepositNonNegative | course_work/models/aco_algorithm.py:92-101 | With a non-negative `delta`, one path's deposit is non-negative. |
| AntColony.EdgeDepositCountsHits | course_work/models/aco_algorithm.py:95-101 | One path's deposit on an entry is `delta` times the number of times the path crosses that edge. |
| AntColony.DepositSymmetric | course_work/models/aco_algorithm.py:92-101 | The total deposit on (a, b) equals that on (b, a). |
| AntColony.DepositNonNegative | course_work/models/aco_algorithm.py:92-101 | With q ≥ 0 and positive lengths, the deposit is non-negative. |
| AntColony.InitialPheromone | course_work/models/aco_algorithm.py:134 | The pheromone matrix starts as an n×n matrix of 1.0. |
| AntColony.FirstMinIsEarliestMinimum | course_work/models/aco_algorithm.py:137-155 | The strict `<` scan keeps the earliest index whose length is at most every other length. |
| AntColony.EarliestMinimumIsUnique | course_work/models/aco_algorithm.py:153-155 | There is only one earliest minimum, so ties are broken deterministically. |
| AntColony.BestSoFarStep | course_work/models/aco_algorithm.py:153-155 | One more tour replaces the best only when strictly shorter, and the best length never grows. |
| AntColony.TraceExtend | course_work/taskmanager/main/tsp_solver.py:101-121 | Adding the new best to the convergence trace keeps it non-increasing and ending at the best. |
| AntColony.AntStep | course_work/models/aco_algorithm.py:145-155 | The ant's tour is `Tour` of its own order and draws on the current pheromone. It is closed, its length is exactly its path sum, and the best becomes the best of all tours so far, never longer than before. |
| AntColony.ColonyToursFacts | course_work/models/aco_algorithm.py:145-150 | Ant a of the colony builds the `Tour` of its own order and draws, on the shared pheromone. |
| AntColony.ColonyToursClosed | course_work/models/aco_algorithm.py:145-150 | The colony builds one tour per ant, each a closed tour over the cities. |
| AntColony.Colony | course_work/models/aco_algorithm.py:145-155 | The ants' tours are `ColonyTours` on the pheromone at the start of the iteration, and the lengths are their path sums. The best becomes the best of every tour so far. |
| AntColony.Iteration | course_work/models/aco_algorithm.py:141-158 | The tours are `ColonyTours` on the old pheromone, with their exact lengths, and the best is kept. It fails exactly when a tour has length 0, where the division by the length fails, and then leaves the pheromone unchanged. Otherwise the pheromone becomes `Updated` of the old one. |
| AntColony.RunSpec | course_work/models/aco_algorithm.py:134-158 | The state after `it` iterations, read off the randomness: pheromone all 1.0 at the start, then one iteration at a time. While the run has not failed no length is 0 and there are `it · ants` tours; a failed run has a zero length. |
| AntColony.RunSpecStep | course_work/models/aco_algorithm.py:141-158 | One iteration of the specification: a stopped run stays as it is. Otherwise the tours and lengths grow by the colony's tours and their lengths. The run stops exactly when one of them is 0, and if not the pheromone is `Updated` of the old one. |
| AntColony.IterationIsRunStep | course_work/models/aco_algorithm.py:141-158 | What one iteration computes from the state after `it` iterations is the state after `it + 1`: the same tours, lengths, outcome and pheromone. |
| AntColony.RunIteration | course_work/models/aco_algorithm.py:141-158 | One pass of the main loop turns the state after `iteration` iterations into the state after `iteration + 1`, and keeps the best of all tours so far. |
| AntColony.RunSpecMeasured | course_work/models/aco_algorithm.py:141-158 | Every tour of the run is a closed tour paired with its path sum. |
| AntColony.RunSpecStops | course_work/models/aco_algorithm.py:141-158 | Once an iteration has failed, later iterations change nothing. |
| AntColony.RunSpecOkBefore | course_work/models/aco_algorithm.py:141-158 | A run that has not failed after b iterations had not failed after any a ≤ b. |
| AntColony.RunSpecGrows | course_work/models/aco_algorithm.py:141-158 | The tours and lengths after a iterations are a prefix of those after b ≥ a. |
| AntColony.ConvergenceEntries | course_work/taskmanager/main/tsp_solver.py:103-120 | The trace after `it` iterations has `it` entries, entry i being the best length after i + 1 iterations. |
| AntColony.RunningBest | course_work/taskmanager/main/tsp_solver.py:106-120 | In a run that succeeds, the best length after i iterations is the best over the first `i · ants` tours of the run. |
| AntColony.BestIsMeasured | course_work/models/aco_algorithm.py:137-161 | The best of a non-empty set of measured tours is a closed tour whose length is its path sum. It is the earliest shortest tour built. |
| AntColony.Run | course_work/models/aco_algorithm.py:122-158 | The tours and lengths are those of the specification `RunSpec` after `iterations` iterations, each a closed tour with its path sum. It fails, with the zero-length error, exactly when `RunSpec` does. On success it returns the best of all tours and a convergence trace with one `BestAfter` entry per iteration, non-increasing and ending at the best. |
| AntColony.SolutionFacts | course_work/models/aco_algorithm.py:114-161 | The specified answer fails with the three-point error exactly when there are fewer than 3 points, and otherwise only when a tour has length 0. A success is named "ACO Solution" after `iterations · ants` measured tours. With ants and iterations ≥ 1 it is the earliest shortest tour, a closed tour of length its path sum. Otherwise it is the empty path of infinite length. |
| AntColony.SolveTsp | course_work/models/aco_algorithm.py:114-161 | The result is `Solution` of the points and the randomness, and the tours are those of `RunSpec`, each measured. Fewer than 3 points give the "Need at least 3 points" error, and only they do. Any other failure is a zero-length tour. A success is named "ACO Solution" after `iterations · ants` tours. With ants ≥ 1 and iterations ≥ 1 it is a closed tour over all points, of length its path sum, and the earliest shortest tour built. With no ants or no iterations it is the empty path of infinite length. |
| TspSolver.RunTrace | course_work/taskmanager/main/tsp_solver.py:103-121 | A trace of one `BestAfter` entry per iteration, non-increasing, of a run that succeeds is a `RunningTrace`: entry k is the best over the tours of the first k iterations. |
| TspSolver.SolveTsp | course_work/taskmanager/main/tsp_solver.py:82-147 | `Solved`: the report is `ReportOf` the run, with `vertices_count == len(points)`, `iterations == self.iterations` and the points as vertices. Fewer than 3 points are the error case, and only they are. Otherwise the tours are the run's, each measured, and a failure is a zero-length tour. On success there are `iterations · ants` tours, and the trace is a `RunningTrace`: entry k is the best over the tours of the first k iterations. It never increases and ends at the reported distance. With ants and iterations ≥ 1 the optimal path is the earliest shortest closed tour, of length its path sum. |
| TspSolver.SolveTspAco | course_work/taskmanager/main/tsp_solver.py:150-171 | `Solved` holds for the parameters built from the arguments, with `evaporation` as `rho` and the others unchanged: every guarantee of `solve_tsp` carries over. |
| Numerics.Clamp | course_work/models/aco_algorithm.py:67 | `max(d, 10 ** -5)` is at least both d and 10^-5, and is one of them. |
| Numerics.Count | course_work/models/aco_algorithm.py:141 | `range(k)` runs k times for k ≥ 0 and never for a negative k. |
| Geometry.DistanceTable | course_work/models/aco_algorithm.py:122-131 | The distance table of n points is n×n. |
| Geometry.DistanceTableIsMetricShaped | course_work/models/aco_algorithm.py:122-131 | The table is symmetric, zero on the diagonal, and holds `sqrt(dx² + dy²)` off the diagonal. |
| Geometry.DistanceMatrix | course_work/models/graph_model.py:68-81 | The nested loops fill exactly the distance table. |
| Graph.PointsEqual | course_work/models/graph_model.py:17-18 | Two points are equal iff both coordinates are, and equality is symmetric. |
| Graph.DistanceToSymmetric | course_work/models/graph_model.py:13-14 | `distance_to` is symmetric. |
| Graph.DistanceTableUsesDistanceTo | course_work/models/graph_model.py:68-81 | The matrix holds `distance_to` off the diagonal and 0 on it. |
| Graph.Coords | course_work/models/graph_model.py:84-86 | One coordinate pair per point, each the point's own coordinates, in insertion order. |
| Graph.NormalEdge | course_work/models/graph_model.py:54 | An edge is stored as (min, max) of its two ends. |
| Graph.WithEdge | course_work/models/graph_model.py:47-56 | An index outside [0, n) or a loop changes nothing. Otherwise the normalised edge is present afterwards, nothing else is added, and the earlier edges keep their order. |
| Graph.WithEdgeIgnoresOrientation | course_work/models/graph_model.py:54-56 | Adding (i, j) and adding (j, i) give the same edge list. |
| Graph.WithEdgeIdempotent | course_work/models/graph_model.py:55-56 | Re-adding an edge in either orientation leaves a single copy. |
| Graph.WithEdgeKeepsValid | course_work/models/graph_model.py:47-56 | Adding an edge keeps every stored pair (a, b) with 0 ≤ a < b < n, and no pair stored twice. |
| Graph.GraphModel.constructor | course_work/models/graph_model.py:27-33 | A new graph has no points, no edges and no distance matrix. |
| Graph.GraphModel.GetPoints | course_work/models/graph_model.py:84-86 | The coordinates of the points in insertion order. |
| Graph.GraphModel.UpdateDistanceMatrix | course_work/models/graph_model.py:68-81 | The stored matrix becomes the distance table of the points, and nothing else changes. |
| Graph.GraphModel.AddPoint | course_work/models/graph_model.py:36-44 | The result is the previous point count. Exactly the new point is appended, and the earlier points and the edges are unchanged. The new matrix is n×n, symmetric, with a zero diagonal. |
| Graph.GraphModel.AddEdge | course_work/models/graph_model.py:47-56 | The edges become `WithEdge` of the old edges, and the points and the matrix stay as they were. |
| Graph.GraphModel.Clear | course_work/models/graph_model.py:59-65 | Points and edges are emptied and the matrix is reset to None. |
| Controller.NearestIsUnique | course_work/controllers/main_controller.py:40-55 | At most one answer meets the nearest-point specification, so the first-on-ties rule fixes it. |
| Controller.MainController.constructor | course_work/controllers/main_controller.py:10-22 | The controller starts with an empty graph, in point mode, with no selection. |
| Controller.MainController.FindNearestPoint | course_work/controllers/main_controller.py:40-55 | None when the model is empty or no point lies within `max_distance`. Otherwise the index of a point within `max_distance` that is no farther than any point within `max_distance`, and strictly closer than every earlier one of them: the first closest point. |
| Controller.MainController.HandlePointSelection | course_work/controllers/main_controller.py:57-81 | With no selection, the point is selected and highlighted. Selecting the selected point again cancels the selection and creates no edge. Selecting a different point creates the edge from the first to the second once and clears the selection. |
| Controller.MainController.SwitchToEdgeMode | course_work/controllers/main_controller.py:83-87 | The mode becomes "add_edges" and the selection is cleared. |
| Controller.MainController.SwitchToPointMode | course_work/controllers/main_controller.py:89-93 | The mode becomes "add_points" and the selection is cleared. |
| Controller.MainController.AddPoint | course_work/controllers/main_controller.py:101-121 | The result is None iff some existing point is closer than 20. In that case the model is unchanged and the error names the first such point. Otherwise the point is appended to the model and shown. |
| Controller.MainController.AddEdge | course_work/controllers/main_controller.py:123-127 | A loop never reaches the model or the view. Otherwise the model's edges become `WithEdge` of the old ones, so an out-of-range or already-present edge changes nothing, while the view is always told to draw the edge. The points, the matrix, the mode and the selection are kept. |
| Controller.MainController.ClearGraph | course_work/controllers/main_controller.py:129-135 | The graph is emptied, the mode is "add_points", and there is no selection. |
| Controller.MainController.SolveTsp | course_work/controllers/main_controller.py:137-197 | The solution is `AntColony.Solution` of the model's points, and the tours are those of `RunSpec`, each measured, `iterations · ants` of them on success. With fewer than 3 points it only reports an error. Otherwise it draws the solver's tour and reports its length, or reports the solver's error. The tour is the earliest shortest closed tour when there are ants and iterations. The graph, the mode and the selection never change. |
| Controller.MainController.HandleGraphClick | course_work/controllers/main_controller.py:24-38 | The mode never changes. In point mode, the click adds a point exactly when it is far enough from every point. It then shows the point and reports its index; otherwise it shows the too-close error for the first such point and reports no point. In edge mode it finds the nearest point within reach. With none, nothing changes. Otherwise, with no selection it selects and highlights the point. With that point already selected it cancels the selection. With another point selected it adds the edge between them, shows it and clears the selection. |
| Library.CheckedName | Lab2/lib_package/models.py:31-35 | The name setter accepts exactly the non-empty names and rejects the empty one with its message. |
| Library.Book.SetName | Lab2/lib_package/models.py:31-35 | A rejected name leaves the name unchanged. An accepted name is stored. |
| Library.Book.constructor | Lab2/lib_package/models.py:43-47 | A new book has no id, the given title, author and total, and no pages read. |
| Library.Book.ReadPages | Lab2/lib_package/models.py:75-79 | Succeeds iff the pages read plus `pages` stay within the total. On success the counter rises by `pages`; on failure nothing changes. The counter never passes the total, and reading up to the total finishes the book (`is_finished`, lines 81-82). |
| Library.Book.IsFinished | Lab2/lib_package/models.py:81-82 | The predicate is the definition: a book is finished exactly when `pages_read >= total_pages`. `ReadPages` states that reading up to the total finishes the book. |
| Library.BookFromDict | Lab2/lib_package/models.py:93-104 | `from_dict` takes title, author, total and id from the dictionary, and 0 pages read when the key is absent. |
| Library.Book.ToDict | Lab2/lib_package/models.py:84-91 | Reading the dictionary back gives the book's state: title, author, total pages, pages read and id. |
| Library.Book.FromDict | Lab2/lib_package/models.py:93-104 | A fresh book whose state is what the dictionary describes. |
| Library.BookDictRoundTrip | Lab2/lib_package/models.py:84-104 | Reading a dictionary back as a book and writing it out again keeps every stored field, with `pages_read` present and 0 when it was missing. |
| Library.SumProgressUpdate | Lab2/lib_package/models.py:144-145 | Changing one book's progress changes the total by the difference. |
| Library.SumProgressBounds | Lab2/lib_package/models.py:144-145 | With no negative progress value, the sum is non-negative and at least each value. |
| Library.Reader.GetTotalPagesRead | Lab2/lib_package/models.py:144-145 | With no negative progress value, the total pages read is non-negative and at least each book's progress. `ReadBook`, `Track` and `Credit` state how it changes. |
| Library.FinishedCount | Lab2/lib_package/models.py:152 | The finished count never exceeds the number of books. |
| Library.FinishedCountIsSetSize | Lab2/lib_package/models.py:152 | Without repeated books, the finished count is the number of distinct books whose own counter has reached the total. |
| Library.DistinctCardinality | Lab2/lib_package/models.py:149 | `len(books_in_progress)` equals the number of listed books. |
| Library.Reader.constructor | Lab2/lib_package/models.py:109-111 | A new reader has its name and id and an empty progress dictionary. |
| Library.Reader.SetName | Lab2/lib_package/models.py:31-35 | The reader's name setter behaves like the book's, and the progress is untouched. |
| Library.Reader.ReadBook | Lab2/lib_package/models.py:135-142 | The book always ends up a key, at 0 if it was new, listed last when new. The call succeeds iff the book's counter stays within its total. On success that book's progress, its counter and the total pages read rise by `pages`. The book keeps its name and id, and other books are untouched. |
| Library.Reader.Track | Lab2/lib_package/models.py:136-137 | The book becomes a key at 0 if it was not one, and the total pages read stay the same. |
| Library.Reader.Credit | Lab2/lib_package/models.py:140 | The book's progress and the total pages read rise by `pages`. |
| Library.Reader.GetReadingStatistics | Lab2/lib_package/models.py:147-157 | `total_books` is the size of the dictionary. `finished_books` counts the books whose own counter has reached the total, and is at most `total_books`. `in_progress_books` is the rest, and `total_pages` is the sum of the progress values. |
| Library.Reader.ToDict | Lab2/lib_package/models.py:159-163 | The dictionary holds the reader's id and name. |
| Library.Reader.FromDict | Lab2/lib_package/models.py:165-167 | A fresh reader whose `to_dict` is the given dictionary. The round trip preserves name and id. |
| Library.Subscription.constructor | Lab2/lib_package/models.py:173-177 | A subscription is named "Абонемент " plus the reader's name and starts now, for 365 days by default. |
| Library.Subscription.EndDate | Lab2/lib_package/models.py:200-202 | The end date lies exactly `duration_days` whole days after the start. |
| Library.Subscription.IsActive | Lab2/lib_package/models.py:204-206 | Active exactly while no more than `duration_days` whole days have passed since the start. |
| Library.Subscription.DaysRemaining | Lab2/lib_package/models.py:208-211 | Never negative. While active it is the number of whole days left to the end date; once the subscription has ended it is 0; a positive value means the subscription is active. |
| Library.NewSubscriptionIsActive | Lab2/lib_package/models.py:204-211 | A subscription of at least one day is active on its first day, with at least `duration_days - 1` days remaining. |
| Sleep.Validate | Lab3/model.py:23-37 | Checks run in the order duration, then date, then quality, and the first failing check decides the error. A duration ≤ 0 and a duration > 24 each give their own message. |
| Sleep.NewRecord | Lab3/model.py:12-20 | The record is built iff all checks pass. It keeps its fields as given, `notes` defaulting to "". Otherwise the error is the validation's. |
| Sleep.BoundaryCases | Lab3/model.py:26-37 | 0.1 and 24 hours and the marks 1 and 10 are accepted. 0, -1 and 25 hours, a future date, and the marks 0 and 11 are each refused with their own error. |
| Generators.NoteGenerator | Lab4/generators.py:14-23 | Exactly max(limit, 0) notes, each the picked one of the seven. |
| Generators.FirstMultiple | Lab4/generators.py:26-32 | The first value is the smallest multiple of 3 that is ≥ a. |
| Generators.MultiplesOfThree | Lab4/generators.py:26-35 | The values start at the first multiple, are all divisible by 3 and ≥ a, and increase by exactly 3. |
| Generators.MultiplesOfThreeExamples | Lab4/generators.py:26-32 | 3→3, 0→0, -3→-3, 10→12, -10→-9, -100→-99. |
| Generators.Strip | Lab4/generators.py:48 | `str.strip` removes the leading and the trailing white space and nothing else. |
| Generators.StripIdempotent | Lab4/generators.py:48-49 | Stripping twice is stripping once. |
| Generators.MatchesIffJoins | Lab4/generators.py:44-48 | A string matches the pattern iff it is `W@W.W` with each W a non-empty run of `[A-Za-z0-9_]`. |
| Generators.ValidateEmails | Lab4/generators.py:39-53 | None or an argument that is not a list or tuple gives []. Otherwise the result is the stripped entries that match, in input order. |
| Generators.KeptSound | Lab4/generators.py:46-49 | Every kept entry matches the pattern, is already stripped, and is the stripped form of some input entry. |
| Generators.KeptComplete | Lab4/generators.py:46-49 | Every text entry whose stripped form matches is kept. |
| Generators.KeptConcat | Lab4/generators.py:46-49 | Filtering keeps the input order: the result for a concatenation is the concatenation of the results. |
| Generators.BlankNotKept | Lab4/generators.py:46-49 | Empty and all-blank strings are dropped. |
| Generators.EmailExampleKept | Lab4/generators.py:44-48 | "test@mail.com" matches. |
| Generators.EmailExamplesRefused | Lab4/generators.py:44-48 | "invalid-email", "no@tld", "spaces in@name.com", "@nodomain.com" and "" do not match. |
| Generators.TotalOfSizes | Lab4/generators.py:67-72 | The sizes `base + (1 if i < extra else 0)` sum to n·base plus the number of indices below `extra`. |
| Generators.ChunkSizes | Lab4/generators.py:96-103 | For a positive number of parts the sizes sum to `limit`, differ pairwise by at most 1, and never increase. No parts is a division error, and a negative number of parts gives no chunks. |
| Garden.SetsOf | Lab1/garden.py:12-28 | The two sets hold exactly the distinct tuple elements. The union, intersection and both differences hold exactly what the set operators promise. |
| Garden.Flowers | Lab1/garden.py:3-28 | `flowers()` gives seven kinds of flower in all. |
| Garden.SetAlgebra | Lab1/garden.py:18-27 | The common flowers lie in both sets, each difference misses the other set, and the union is the disjoint union of the two differences and the common part. |
| Garden.PickedSets | Lab1/garden.py:5-13 | The duplicates of the two tuples collapse into the five garden flowers and the four meadow flowers. |
| Garden.PickedKinds | Lab1/garden.py:5-13 | The garden gives five kinds and the meadow four. |
| Garden.FlowersValues | Lab1/garden.py:21-28 | Camomile and dandelion are common. Rose, gladiolus and sunflower grow only in the garden, and clover and poppy only in the meadow. |

## Left out

- The Qt view (`MainWindow`), its dialogs and signals are not modelled. The controller records the calls it makes on the view in `viewLog`, and the texts it shows are reduced to `Status` and `Problem` values.
- The SQLite and PostgreSQL layers, the Django views, URLs, forms and ORM models, and the history window are not modelled. They are I/O.
- `MainController.run`, `show_history` and the entry points (`main.py` of the course work and of the labs) are not modelled. They only start windows.
- The matplotlib convergence chart and its base64 encoding are not modelled. They are presentation.
- Floating point is modelled as exact `real` arithmetic. `sqrt` and `**` are parameters of type `MathLib`, and the `10**-5` clamp is exact.
- Randomness is not modelled as such. `shuffle`, `random()` and `random.choice` have their outcomes passed in as data, and the model gives every construction step its own draw even when the source draws nothing (a zero weight sum).
- The wall clock is not modelled. `time.time()` and `datetime.now()` are parameters or left out, and `date.today()` is a parameter.
- The threads, `Queue`, `ThreadPoolExecutor` and `as_completed` ordering of the threaded note generators are left out. Only their chunk-size arithmetic is modelled.
- `Path.__str__`, `to_list`, `__str__`, `__len__`, `get_info`, `entity_type` and `__bool__` are left out. They only format.
- `Subscription.get_status_info`, `to_dict` and `from_dict`, the library services and the file-writing utilities are left out. They only format, call the database, or round floats.
- The sleep tracker's record list, its controller and its database are left out. They are storage and input parsing.
- `circle.py` and `distance.py` of lab 1 are left out. They are float exercises over fixed data.
- The `print` calls are dropped: the controller's click and point traces (`main_controller.py` lines 26 and 117), the error messages of the lab 4 generators (`generators.py` lines 22, 34 and 51) and the set listings of `flowers()` (`garden.py` lines 14-15 and 32-35). They only write to the console.
- `Library.BookFromDict`: a dictionary whose `pages_read` key is present with the value `None` cannot be written as a `BookDict`, whose `pagesRead` of `None` stands for the absent key. The source would store `None` as the counter in that case.
- `AntColony.SolveTsp`: a tour of length 0 is reported as an error value rather than a raised `ZeroDivisionError`.
- `TspSolver.SolveTsp`: the distance is the exact best length, without `round(best_length, 2)`, and the chart is left out of the report.
- `Controller.MainController.SolveTsp`: the timing, the database save and the text of the report are left out. Any exception is reduced to the solver's error result.
- `Controller.MainController.AddPoint`: the `try`/`except` around adding the point is not modelled, because nothing inside it can fail in the model.
- `Generators.MultiplesOfThree`: the generator is infinite, so the model returns its first `count` values. The `except` branch is left out because integer arithmetic cannot fail.
- `Generators.NoteGenerator`: the `except` branch is left out because `random.choice` on a fixed non-empty list cannot fail.
- `Generators.ValidateEmails`: an entry that is not a string, on which `strip` or the match raises and which the source skips, is modelled as `NonText` and skipped. Of the matching examples of the tests only "test@mail.com" is proved concretely; the general characterisation covers the others.
- `Library.Subscription.EndDate`: the bounded range of `datetime` and `timedelta` is not modelled. The model gives an end date for every duration, where the source raises `OverflowError` once the end passes `datetime.max` or the duration passes 999999999 days; `IsActive` and `DaysRemaining` read the end date and inherit the same gap.
- `Library.Subscription.DaysRemaining`: times are integer microseconds, so `timedelta.days` is floor division by a day and sub-microsecond precision is not modelled.
