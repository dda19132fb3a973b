/** The ant colony optimisation heuristic for the travelling salesman problem:
    weighted selection of the next city, tour construction, tour length,
    pheromone evaporation and reinforcement, and the iteration loop that keeps
    the shortest tour found. Randomness is supplied as data: for every ant the
    order `shuffle` left the city list in, and the values `random()` returned. */
module AntColony {
  import opened Wrappers
  import opened Numerics
  import opened Geometry

  /** The constructor arguments of the algorithm object. */
  datatype Params = Params(ants: int, iterations: int, alpha: real, beta: real, rho: real, q: real)

  /** The defaults of the constructor. */
  const DefaultParams := Params(100, 20, 1.5, 1.2, 0.6, 10.0)

  /** The `Path` value returned by a solve. */
  datatype Path = Path(indices: seq<int>, length: Length, name: string)

  const SolutionName := "ACO Solution"

  /** `ValueError` for too few points, and the `ZeroDivisionError` raised by the
      pheromone update when some tour has length 0. */
  datatype SolveError = TooFewPoints | ZeroLengthTour

  const TooFewPointsMessage := "Need at least 3 points for TSP"

  /** The randomness one ant consumes: the shuffled index list and one draw of
      `random()` per construction step. */
  datatype AntRandomness = AntRandomness(order: seq<int>, draws: seq<real>)

  // ---------------------------------------------------------------------------
  // Permutations and closed tours

  function Range(n: nat): (r: seq<int>)
    ensures |r| == n && forall k :: 0 <= k < n ==> r[k] == k
  {
    seq(n, k => k)
  }

  /** `s` holds each of 0..n-1 exactly as often as `range(n)` does. */
  ghost predicate IsPermutation(s: seq<int>, n: nat)
  {
    multiset(s) == multiset(Range(n))
  }

  /** A shuffled `list(range(n))`: a permutation of 0..n-1, with its length
      and range spelled out (`IsOrderIsPermutation` shows these add nothing). */
  ghost predicate IsOrder(s: seq<int>, n: nat)
  {
    |s| == n && InRange(s, n) && IsPermutation(s, n)
  }

  /** A tour over n cities: n + 1 indices, the first n a permutation of 0..n-1,
      and the last equal to the first. */
  ghost predicate IsClosedTour(t: seq<int>, n: nat)
  {
    n >= 1 && |t| == n + 1 && t[0] == t[n] && IsPermutation(t[..n], n)
  }

  predicate InRange(s: seq<int>, n: int)
  {
    forall k :: 0 <= k < |s| ==> 0 <= s[k] < n
  }

  lemma RangeMultiplicity(n: nat, v: int)
    ensures multiset(Range(n))[v] == (if 0 <= v < n then 1 else 0)
  {
    if n > 0 {
      assert Range(n) == Range(n - 1) + [n - 1];
      RangeMultiplicity(n - 1, v);
    }
  }

  /** A permutation of 0..n-1 has length n and holds each index exactly once. */
  lemma {:induction false} PermutationFacts(s: seq<int>, n: nat)
    requires IsPermutation(s, n)
    ensures |s| == n && InRange(s, n)
    ensures forall v :: 0 <= v < n ==> multiset(s)[v] == 1
  {
    assert |s| == |multiset(s)| == |multiset(Range(n))| == n;
    forall k | 0 <= k < |s|
      ensures 0 <= s[k] < n
    {
      assert s[k] in multiset(s);
      RangeMultiplicity(n, s[k]);
    }
    forall v | 0 <= v < n
      ensures multiset(s)[v] == 1
    {
      RangeMultiplicity(n, v);
    }
  }

  /** Being a shuffled order is exactly being a permutation of 0..n-1. */
  lemma IsOrderIsPermutation(s: seq<int>, n: nat)
    ensures IsOrder(s, n) <==> IsPermutation(s, n)
  {
    if IsPermutation(s, n) {
      PermutationFacts(s, n);
    }
  }

  /** A closed tour visits every city exactly once before returning to its start. */
  lemma ClosedTourVisitsEachCityOnce(t: seq<int>, n: nat)
    requires IsClosedTour(t, n)
    ensures InRange(t, n) && t[0] == t[|t| - 1]
    ensures forall v :: 0 <= v < n ==> multiset(t[..n])[v] == 1
  {
    PermutationFacts(t[..n], n);
    assert forall k :: 0 <= k < n ==> t[k] == t[..n][k];
    assert n > 0 ==> t[0] == t[..n][0];
  }

  // ---------------------------------------------------------------------------
  // _select_index

  /** The sum of `selection[k] / total` over k < m, the running value of `prob`. */
  function NormalizedPrefix(selection: seq<real>, total: real, m: nat): real
    requires total != 0.0 && m <= |selection|
  {
    if m == 0 then 0.0 else NormalizedPrefix(selection, total, m - 1) + selection[m - 1] / total
  }

  /** The first index k >= i whose cumulative normalised weight reaches `draw`,
      or the last index when none does. */
  function FirstReaching(selection: seq<real>, total: real, draw: real, i: nat): (r: int)
    requires total != 0.0 && i <= |selection|
    ensures r < |selection| && (i < |selection| ==> i <= r)
    decreases |selection| - i
  {
    if i == |selection| then |selection| - 1
    else if NormalizedPrefix(selection, total, i + 1) >= draw then i
    else FirstReaching(selection, total, draw, i + 1)
  }

  /** The index weighted selection picks for the given draw. */
  function Choice(selection: seq<real>, draw: real): (r: int)
    ensures |selection| > 0 ==> 0 <= r < |selection|
  {
    if Sum(selection) == 0.0 then |selection| - 1
    else FirstReaching(selection, Sum(selection), draw, 0)
  }

  lemma {:induction false} FirstReachingFacts(selection: seq<real>, total: real, draw: real, i: nat)
    requires total != 0.0 && i <= |selection|
    ensures var r := FirstReaching(selection, total, draw, i);
      r < |selection| &&
      (r == |selection| - 1 || (i <= r && NormalizedPrefix(selection, total, r + 1) >= draw)) &&
      (i < |selection| ==> i <= r) &&
      (forall k :: i < k <= r ==> NormalizedPrefix(selection, total, k) < draw)
    decreases |selection| - i
  {
    if i < |selection| && NormalizedPrefix(selection, total, i + 1) < draw {
      FirstReachingFacts(selection, total, draw, i + 1);
    }
  }

  /** Weighted selection always yields an index of the list (-1 only for an
      empty list), the last index when every weight is zero, and otherwise the
      first index whose cumulative normalised weight reaches the draw, with
      the last index as the fallback. */
  lemma ChoiceFacts(selection: seq<real>, draw: real)
    ensures |selection| == 0 ==> Choice(selection, draw) == -1
    ensures |selection| > 0 ==> 0 <= Choice(selection, draw) < |selection|
    ensures Sum(selection) == 0.0 ==> Choice(selection, draw) == |selection| - 1
    ensures Sum(selection) != 0.0 ==>
      var r := Choice(selection, draw);
      0 <= r < |selection| &&
      (forall k :: 0 < k <= r ==> NormalizedPrefix(selection, Sum(selection), k) < draw) &&
      (r == |selection| - 1 || NormalizedPrefix(selection, Sum(selection), r + 1) >= draw)
  {
    if Sum(selection) != 0.0 {
      assert |selection| > 0;
      FirstReachingFacts(selection, Sum(selection), draw, 0);
    }
  }

  lemma {:induction false} NormalizedPrefixIsRatio(selection: seq<real>, m: nat)
    requires Sum(selection) != 0.0 && m <= |selection|
    ensures NormalizedPrefix(selection, Sum(selection), m) == Sum(selection[..m]) / Sum(selection)
  {
    var t := Sum(selection);
    if m > 0 {
      NormalizedPrefixIsRatio(selection, m - 1);
      assert selection[..m][..m - 1] == selection[..m - 1];
      var a := Sum(selection[..m - 1]);
      var b := selection[m - 1];
      assert Sum(selection[..m]) == a + b;
      SumOfQuotients(a, b, t);
    }
  }

  lemma SumOfQuotients(a: real, b: real, t: real)
    requires t != 0.0
    ensures a / t + b / t == (a + b) / t
  {
  }

  /** In exact arithmetic the cumulative weights end at 1, so a draw in [0, 1]
      is always reached and the fallback answers only on rounding drift. */
  lemma ChoiceReachesDraw(selection: seq<real>, draw: real)
    requires Sum(selection) != 0.0 && draw <= 1.0
    ensures var r := Choice(selection, draw);
      0 <= r < |selection| && NormalizedPrefix(selection, Sum(selection), r + 1) >= draw
  {
    ChoiceFacts(selection, draw);
    if Choice(selection, draw) == |selection| - 1 {
      NormalizedPrefixIsRatio(selection, |selection|);
      assert selection[..|selection|] == selection;
      assert Sum(selection) / Sum(selection) == 1.0;
    }
  }

  /** `_select_index`: the fallback for a zero sum, then the cumulative walk. */
  method SelectIndex(selection: seq<real>, draw: real) returns (index: int)
    ensures index == Choice(selection, draw)
  {
    var total := Sum(selection);
    if total == 0.0 {
      return |selection| - 1;
    }
    var prob := 0.0;
    for i := 0 to |selection|
      invariant prob == NormalizedPrefix(selection, total, i)
      invariant FirstReaching(selection, total, draw, i) == FirstReaching(selection, total, draw, 0)
    {
      prob := prob + selection[i] / total;
      if prob >= draw {
        return i;
      }
    }
    return |selection| - 1;
  }

  // ---------------------------------------------------------------------------
  // _create_path

  /** The distance matrix is square and the pheromone matrix has its shape. */
  predicate Matrices(dist: seq<seq<real>>, pher: array2<real>)
  {
    Square(dist) && pher.Length0 == |dist| && pher.Length1 == |dist|
  }

  /** The same shape condition for pheromone values held as rows. */
  predicate Shapes(dist: seq<seq<real>>, ph: seq<seq<real>>)
  {
    Square(dist) && Square(ph) && |ph| == |dist|
  }

  /** The first `j` values of row i of the pheromone array. */
  ghost function Row(pher: array2<real>, i: nat, j: nat): (r: seq<real>)
    reads pher
    requires i < pher.Length0 && j <= pher.Length1
    ensures |r| == j && forall k :: 0 <= k < j ==> r[k] == pher[i, k]
  {
    if j == 0 then [] else Row(pher, i, j - 1) + [pher[i, j - 1]]
  }

  /** The first `i` rows of the pheromone array. */
  ghost function Rows(pher: array2<real>, i: nat): (m: seq<seq<real>>)
    reads pher
    requires i <= pher.Length0
    ensures |m| == i && forall a :: 0 <= a < i ==> m[a] == Row(pher, a, pher.Length1)
  {
    if i == 0 then [] else Rows(pher, i - 1) + [Row(pher, i - 1, pher.Length1)]
  }

  /** The values the pheromone array holds, row by row. */
  ghost function Snapshot(pher: array2<real>): (m: seq<seq<real>>)
    reads pher
    ensures |m| == pher.Length0 && forall i :: 0 <= i < |m| ==> |m[i]| == pher.Length1
    ensures forall i, j :: 0 <= i < pher.Length0 && 0 <= j < pher.Length1 ==> m[i][j] == pher[i, j]
  {
    Rows(pher, pher.Length0)
  }

  /** Two matrices with the same rows of the same lengths and the same entries are equal. */
  lemma MatrixEquality(a: seq<seq<real>>, b: seq<seq<real>>)
    requires |a| == |b| && forall i :: 0 <= i < |a| ==> |a[i]| == |b[i]|
    requires forall i, j :: 0 <= i < |a| && 0 <= j < |a[i]| ==> a[i][j] == b[i][j]
    ensures a == b
  {
    forall i | 0 <= i < |a|
      ensures a[i] == b[i]
    {
    }
  }

  /** `(pheromone ** alpha) * ((1 / max(distance, 10 ** -5)) ** beta)`. */
  function Weight(p: Params, lib: MathLib, pheromone: real, distance: real): real
  {
    lib.pow(pheromone, p.alpha) * lib.pow(1.0 / Clamp(distance), p.beta)
  }

  /** The selection list for the ant at city i: the weight of each candidate,
      from the pheromone and the distance on the edge from i to it. */
  function Weights(p: Params, lib: MathLib, dist: seq<seq<real>>, ph: seq<seq<real>>, i: int, candidates: seq<int>): (w: seq<real>)
    requires Shapes(dist, ph) && 0 <= i < |dist| && InRange(candidates, |dist|)
    ensures |w| == |candidates|
    decreases |candidates|
  {
    if |candidates| == 0 then []
    else
      var j := candidates[|candidates| - 1];
      Weights(p, lib, dist, ph, i, candidates[..|candidates| - 1]) + [Weight(p, lib, ph[i][j], dist[i][j])]
  }

  /** Entry k of the selection list is the weight of the edge from i to the
      k-th candidate. */
  lemma {:induction false} WeightsEntries(p: Params, lib: MathLib, dist: seq<seq<real>>, ph: seq<seq<real>>,
                                          i: int, candidates: seq<int>)
    requires Shapes(dist, ph) && 0 <= i < |dist| && InRange(candidates, |dist|)
    ensures var w := Weights(p, lib, dist, ph, i, candidates);
      forall k :: 0 <= k < |candidates| ==> w[k] == Weight(p, lib, ph[i][candidates[k]], dist[i][candidates[k]])
    decreases |candidates|
  {
    if |candidates| > 0 {
      var prefix := candidates[..|candidates| - 1];
      WeightsEntries(p, lib, dist, ph, i, prefix);
      assert forall k :: 0 <= k < |prefix| ==> prefix[k] == candidates[k];
    }
  }

  /** The cities an ant has visited once the construction loop has moved every
      city of `unvisited` to the end of `visited`, consuming one draw per step. */
  function TourFrom(p: Params, lib: MathLib, dist: seq<seq<real>>, ph: seq<seq<real>>,
                    visited: seq<int>, unvisited: seq<int>, draws: seq<real>): seq<int>
    requires Shapes(dist, ph) && |visited| > 0
    requires InRange(visited, |dist|) && InRange(unvisited, |dist|) && |draws| >= |unvisited|
    decreases |unvisited|, 1
  {
    if |unvisited| == 0 then visited
    else NextCity(p, lib, dist, ph, visited, unvisited, draws)
  }

  /** One pass of the construction loop: weigh the unvisited cities from the
      current one, select one with the next draw, move it to the tour and go on. */
  function NextCity(p: Params, lib: MathLib, dist: seq<seq<real>>, ph: seq<seq<real>>,
                    visited: seq<int>, unvisited: seq<int>, draws: seq<real>): seq<int>
    requires Shapes(dist, ph) && |visited| > 0
    requires InRange(visited, |dist|) && InRange(unvisited, |dist|) && |draws| >= |unvisited| > 0
    decreases |unvisited|, 0
  {
    var k := Choice(Weights(p, lib, dist, ph, visited[|visited| - 1], unvisited), draws[0]);
    TourFrom(p, lib, dist, ph, visited + [unvisited[k]], unvisited[..k] + unvisited[k + 1..], draws[1..])
  }

  /** One construction step: the draw selects an index of the unvisited list,
      and the rest of the tour is built from that city moved to the tour. */
  lemma TourStep(p: Params, lib: MathLib, dist: seq<seq<real>>, ph: seq<seq<real>>,
                 visited: seq<int>, unvisited: seq<int>, draws: seq<real>)
    requires Shapes(dist, ph) && |visited| > 0
    requires InRange(visited, |dist|) && InRange(unvisited, |dist|) && |draws| >= |unvisited| > 0
    ensures var k := Choice(Weights(p, lib, dist, ph, visited[|visited| - 1], unvisited), draws[0]);
      0 <= k < |unvisited| &&
      TourFrom(p, lib, dist, ph, visited, unvisited, draws)
        == TourFrom(p, lib, dist, ph, visited + [unvisited[k]], unvisited[..k] + unvisited[k + 1..], draws[1..])
  {
    assert TourFrom(p, lib, dist, ph, visited, unvisited, draws) == NextCity(p, lib, dist, ph, visited, unvisited, draws);
  }

  /** The same step with the selected index left abstract: whichever city the
      draw selects, the tour goes on from it. */
  lemma TourStepSome(p: Params, lib: MathLib, dist: seq<seq<real>>, ph: seq<seq<real>>,
                     visited: seq<int>, unvisited: seq<int>, draws: seq<real>)
      returns (k: int)
    requires Shapes(dist, ph) && |visited| > 0
    requires InRange(visited, |dist|) && InRange(unvisited, |dist|) && |draws| >= |unvisited| > 0
    ensures 0 <= k < |unvisited|
    ensures InRange(visited + [unvisited[k]], |dist|) && InRange(unvisited[..k] + unvisited[k + 1..], |dist|)
    ensures TourFrom(p, lib, dist, ph, visited, unvisited, draws)
      == TourFrom(p, lib, dist, ph, visited + [unvisited[k]], unvisited[..k] + unvisited[k + 1..], draws[1..])
  {
    TourStep(p, lib, dist, ph, visited, unvisited, draws);
    k := Choice(Weights(p, lib, dist, ph, visited[|visited| - 1], unvisited), draws[0]);
    MoveInRange(visited, unvisited, k, |dist|);
  }

  /** Moving the element at k from one list to the end of another keeps both
      lists in range. */
  lemma MoveInRange(visited: seq<int>, unvisited: seq<int>, k: int, n: int)
    requires InRange(visited, n) && InRange(unvisited, n) && 0 <= k < |unvisited|
    ensures InRange(visited + [unvisited[k]], n)
    ensures InRange(unvisited[..k] + unvisited[k + 1..], n)
  {
    var rest := unvisited[..k] + unvisited[k + 1..];
    forall t | 0 <= t < |rest|
      ensures 0 <= rest[t] < n
    {
      if t < k {
        assert rest[t] == unvisited[t];
      } else {
        assert rest[t] == unvisited[t + 1];
      }
    }
  }

  /** Moving the element at k from one list to the end of another keeps their
      combined contents. */
  lemma MoveContents(visited: seq<int>, unvisited: seq<int>, k: int)
    requires 0 <= k < |unvisited|
    ensures multiset(visited + [unvisited[k]]) + multiset(unvisited[..k] + unvisited[k + 1..])
      == multiset(visited) + multiset(unvisited)
  {
    assert unvisited == unvisited[..k] + [unvisited[k]] + unvisited[k + 1..];
  }

  /** The construction keeps the visited prefix, adds one city per unvisited
      one and stays in range. */
  lemma {:induction false} TourFromShape(p: Params, lib: MathLib, dist: seq<seq<real>>, ph: seq<seq<real>>,
                                         visited: seq<int>, unvisited: seq<int>, draws: seq<real>)
    requires Shapes(dist, ph) && |visited| > 0
    requires InRange(visited, |dist|) && InRange(unvisited, |dist|) && |draws| >= |unvisited|
    ensures var t := TourFrom(p, lib, dist, ph, visited, unvisited, draws);
      |t| == |visited| + |unvisited| && t[..|visited|] == visited && InRange(t, |dist|)
    decreases |unvisited|
  {
    if |unvisited| == 0 {
      assert visited[..|visited|] == visited;
    } else {
      var k := TourStepSome(p, lib, dist, ph, visited, unvisited, draws);
      var visited', unvisited' := visited + [unvisited[k]], unvisited[..k] + unvisited[k + 1..];
      TourFromShape(p, lib, dist, ph, visited', unvisited', draws[1..]);
      var t := TourFrom(p, lib, dist, ph, visited', unvisited', draws[1..]);
      assert t[..|visited|] == t[..|visited'|][..|visited|];
    }
  }

  /** The construction ends holding the visited cities and every unvisited
      city exactly once. */
  lemma {:induction false} TourFromContents(p: Params, lib: MathLib, dist: seq<seq<real>>, ph: seq<seq<real>>,
                                            visited: seq<int>, unvisited: seq<int>, draws: seq<real>)
    requires Shapes(dist, ph) && |visited| > 0
    requires InRange(visited, |dist|) && InRange(unvisited, |dist|) && |draws| >= |unvisited|
    ensures multiset(TourFrom(p, lib, dist, ph, visited, unvisited, draws)) == multiset(visited) + multiset(unvisited)
    decreases |unvisited|
  {
    if |unvisited| > 0 {
      var k := TourStepSome(p, lib, dist, ph, visited, unvisited, draws);
      MoveContents(visited, unvisited, k);
      TourFromContents(p, lib, dist, ph, visited + [unvisited[k]], unvisited[..k] + unvisited[k + 1..], draws[1..]);
    }
  }

  /** The tour an ant builds from the shuffled order: it starts at the city
      popped from the end of the order, visits the others as the draws select
      them and closes by returning to the start. */
  function Tour(p: Params, lib: MathLib, dist: seq<seq<real>>, ph: seq<seq<real>>,
                order: seq<int>, draws: seq<real>): seq<int>
    requires Shapes(dist, ph) && |dist| >= 1
    requires IsOrder(order, |dist|) && |draws| >= |dist| - 1
  {
    TourFrom(p, lib, dist, ph, [order[|order| - 1]], order[..|order| - 1], draws) + [order[|order| - 1]]
  }

  /** Whatever the draws, an ant's tour is closed: it visits every city once
      and returns to the city it started from. */
  lemma TourFacts(p: Params, lib: MathLib, dist: seq<seq<real>>, ph: seq<seq<real>>,
                  order: seq<int>, draws: seq<real>)
    requires Shapes(dist, ph) && |dist| >= 1
    requires IsOrder(order, |dist|) && |draws| >= |dist| - 1
    ensures var t := Tour(p, lib, dist, ph, order, draws);
      IsClosedTour(t, |dist|) && InRange(t, |dist|) && t[0] == order[|order| - 1]
  {
    var n := |order|;
    assert order == order[..n - 1] + [order[n - 1]];
    TourFromShape(p, lib, dist, ph, [order[n - 1]], order[..n - 1], draws);
    TourFromContents(p, lib, dist, ph, [order[n - 1]], order[..n - 1], draws);
    var visited := TourFrom(p, lib, dist, ph, [order[n - 1]], order[..n - 1], draws);
    var t := visited + [order[n - 1]];
    assert visited[..1] == [order[n - 1]];
    assert t[..n] == visited;
    forall k | 0 <= k < |t|
      ensures 0 <= t[k] < n
    {
      if k < n {
        assert t[k] == visited[k];
      }
    }
  }

  /** The inner loop of `_create_path` that weighs each unvisited city. */
  method SelectionWeights(p: Params, lib: MathLib, dist: seq<seq<real>>, pher: array2<real>,
                          i: int, unvisited: seq<int>) returns (selection: seq<real>)
    requires Matrices(dist, pher) && 0 <= i < |dist| && InRange(unvisited, |dist|)
    ensures selection == Weights(p, lib, dist, Snapshot(pher), i, unvisited)
  {
    selection := [];
    for k := 0 to |unvisited|
      invariant selection == Weights(p, lib, dist, Snapshot(pher), i, unvisited[..k])
    {
      var j := unvisited[k];
      assert unvisited[..k + 1][..k] == unvisited[..k];
      selection := selection + [Weight(p, lib, pher[i, j], dist[i][j])];
    }
    assert unvisited[..|unvisited|] == unvisited;
  }

  /** One iteration of the loop of `_create_path`: weigh the unvisited cities
      from the current one, select one with the next draw, and move it from the
      unvisited list to the end of the tour. */
  method MoveOne(p: Params, lib: MathLib, dist: seq<seq<real>>, pher: array2<real>,
                 visited: seq<int>, unvisited: seq<int>, draws: seq<real>)
    returns (visited': seq<int>, unvisited': seq<int>)
    requires Matrices(dist, pher) && |visited| > 0
    requires InRange(visited, |dist|) && InRange(unvisited, |dist|) && |draws| >= |unvisited| > 0
    ensures |visited'| == |visited| + 1 && |unvisited'| == |unvisited| - 1 && visited'[0] == visited[0]
    ensures InRange(visited', |dist|) && InRange(unvisited', |dist|)
    ensures multiset(visited') + multiset(unvisited') == multiset(visited) + multiset(unvisited)
    ensures TourFrom(p, lib, dist, Snapshot(pher), visited, unvisited, draws)
      == TourFrom(p, lib, dist, Snapshot(pher), visited', unvisited', draws[1..])
  {
    var i := visited[|visited| - 1];
    var selection := SelectionWeights(p, lib, dist, pher, i, unvisited);
    var selected := SelectIndex(selection, draws[0]);
    TourStep(p, lib, dist, Snapshot(pher), visited, unvisited, draws);
    MoveInRange(visited, unvisited, selected, |dist|);
    MoveContents(visited, unvisited, selected);
    visited' := visited + [unvisited[selected]];
    unvisited' := unvisited[..selected] + unvisited[selected + 1..];
  }

  /** `_create_path`: pop the start from the shuffled list, then n - 1 times
      weigh the unvisited cities, select one and move it to the tour. */
  method CreatePath(p: Params, lib: MathLib, dist: seq<seq<real>>, pher: array2<real>,
                    order: seq<int>, draws: seq<real>) returns (path: seq<int>)
    requires Matrices(dist, pher) && |dist| >= 1
    requires IsOrder(order, |dist|) && |draws| >= |dist| - 1
    ensures path == Tour(p, lib, dist, Snapshot(pher), order, draws)
    ensures IsClosedTour(path, |dist|) && InRange(path, |dist|)
    ensures path[0] == order[|order| - 1]
  {
    var n := |dist|;
    var unvisited := order;
    var visited := [unvisited[|unvisited| - 1]];
    unvisited := unvisited[..|unvisited| - 1];
    assert order == unvisited + [visited[0]];
    assert draws[0..] == draws;
    for step := 0 to n - 1
      invariant |unvisited| == n - 1 - step && |visited| == step + 1
      invariant InRange(visited, n) && InRange(unvisited, n)
      invariant visited[0] == order[n - 1]
      invariant TourFrom(p, lib, dist, Snapshot(pher), visited, unvisited, draws[step..])
        == TourFrom(p, lib, dist, Snapshot(pher), [order[n - 1]], order[..n - 1], draws)
    {
      assert draws[step..][1..] == draws[step + 1..];
      visited, unvisited := MoveOne(p, lib, dist, pher, visited, unvisited, draws[step..]);
    }
    assert unvisited == [];
    visited := visited + [visited[0]];
    path := visited;
    TourFacts(p, lib, dist, Snapshot(pher), order, draws);
  }

  // ---------------------------------------------------------------------------
  // _calculate_path_length

  /** The sum of `dist[path[k]][path[k + 1]]` over consecutive pairs. */
  function PathSum(dist: seq<seq<real>>, path: seq<int>): real
    requires Square(dist) && InRange(path, |dist|)
  {
    if |path| < 2 then 0.0
    else PathSum(dist, path[..|path| - 1]) + dist[path[|path| - 2]][path[|path| - 1]]
  }

  /** The length of each edge of the path, in order. */
  function EdgeLengths(dist: seq<seq<real>>, path: seq<int>): (e: seq<real>)
    requires Square(dist) && InRange(path, |dist|)
    ensures |path| >= 1 ==> |e| == |path| - 1
  {
    if |path| < 2 then [] else seq(|path| - 1, k requires 0 <= k < |path| - 1 => dist[path[k]][path[k + 1]])
  }

  /** The path length is the plain sum of its edge lengths. */
  lemma {:induction false} PathSumIsSumOfEdges(dist: seq<seq<real>>, path: seq<int>)
    requires Square(dist) && InRange(path, |dist|)
    ensures PathSum(dist, path) == Sum(EdgeLengths(dist, path))
  {
    if |path| >= 2 {
      var prefix := path[..|path| - 1];
      PathSumIsSumOfEdges(dist, prefix);
      var e := EdgeLengths(dist, path);
      if |path| == 2 {
        assert EdgeLengths(dist, prefix) == [] == e[..|e| - 1];
      } else {
        assert EdgeLengths(dist, prefix) == e[..|e| - 1];
      }
    }
  }

  /** The values the repository's tests expect: 45 for the closed triangle,
      30 for the open path, and 0 for any path shorter than two cities. */
  lemma PathLengthExamples(path: seq<int>)
    requires InRange(path, 3) && |path| < 2
    ensures var m := [[0.0, 10.0, 15.0], [10.0, 0.0, 20.0], [15.0, 20.0, 0.0]];
      PathSum(m, [0, 1, 2, 0]) == 45.0 && PathSum(m, [0, 1, 2]) == 30.0 && PathSum(m, path) == 0.0
  {
    var m := [[0.0, 10.0, 15.0], [10.0, 0.0, 20.0], [15.0, 20.0, 0.0]];
    assert [0, 1, 2, 0][..3] == [0, 1, 2] && [0, 1, 2][..2] == [0, 1] && [0, 1][..1] == [0];
  }

  /** `_calculate_path_length`: accumulate the edges left to right. */
  method CalculatePathLength(dist: seq<seq<real>>, path: seq<int>) returns (total: real)
    requires Square(dist) && InRange(path, |dist|)
    ensures total == PathSum(dist, path)
  {
    total := 0.0;
    var edges := if |path| > 0 then |path| - 1 else 0;
    for i := 0 to edges
      invariant total == PathSum(dist, path[..if |path| == 0 then 0 else i + 1])
    {
      assert path[..i + 2][..i + 1] == path[..i + 1];
      total := total + dist[path[i]][path[i + 1]];
    }
    assert path[..|path|] == path;
  }

  // ---------------------------------------------------------------------------
  // _update_pheromone

  /** The number of edges of a path: `len(path) - 1`, no fewer than 0. */
  function EdgeCount(path: seq<int>): nat
  {
    if |path| > 0 then |path| - 1 else 0
  }

  /** The amount the first m edges of a path add to cell (a, b) when each edge
      adds `delta` to `[i][j]` and then to `[j][i]`. */
  function EdgeDeposit(path: seq<int>, m: nat, delta: real, a: int, b: int): real
    requires m <= EdgeCount(path)
  {
    if m == 0 then 0.0 else
      EdgeDeposit(path, m - 1, delta, a, b)
      + (if path[m - 1] == a && path[m] == b then delta else 0.0)
      + (if path[m - 1] == b && path[m] == a then delta else 0.0)
  }

  /** How many times the first m edges of a path touch cell (a, b). */
  function EdgeHits(path: seq<int>, m: nat, a: int, b: int): nat
    requires m <= EdgeCount(path)
  {
    if m == 0 then 0 else
      EdgeHits(path, m - 1, a, b)
      + (if path[m - 1] == a && path[m] == b then 1 else 0)
      + (if path[m - 1] == b && path[m] == a then 1 else 0)
  }

  /** What the first k ants add to cell (a, b), ant t adding `q / lengths[t]` per edge. */
  function Deposit(q: real, paths: seq<seq<int>>, lengths: seq<real>, k: nat, a: int, b: int): real
    requires k <= |paths| && k <= |lengths|
    requires forall t :: 0 <= t < k ==> lengths[t] != 0.0
  {
    if k == 0 then 0.0 else
      Deposit(q, paths, lengths, k - 1, a, b)
      + EdgeDeposit(paths[k - 1], EdgeCount(paths[k - 1]), q / lengths[k - 1], a, b)
  }

  /** An ant's deposit on a cell is `delta` times the number of times its path
      touches that cell in either direction. */
  lemma {:induction false} EdgeDepositCountsHits(path: seq<int>, m: nat, delta: real, a: int, b: int)
    requires m <= EdgeCount(path)
    ensures EdgeDeposit(path, m, delta, a, b) == delta * (EdgeHits(path, m, a, b) as real)
  {
    if m > 0 {
      EdgeDepositCountsHits(path, m - 1, delta, a, b);
      var h := EdgeHits(path, m - 1, a, b);
      var c := (if path[m - 1] == a && path[m] == b then 1 else 0) + (if path[m - 1] == b && path[m] == a then 1 else 0);
      assert delta * ((h + c) as real) == delta * (h as real) + delta * (c as real);
    }
  }

  lemma {:induction false} EdgeDepositSymmetric(path: seq<int>, m: nat, delta: real, a: int, b: int)
    requires m <= EdgeCount(path)
    ensures EdgeDeposit(path, m, delta, a, b) == EdgeDeposit(path, m, delta, b, a)
  {
    if m > 0 {
      EdgeDepositSymmetric(path, m - 1, delta, a, b);
    }
  }

  lemma {:induction false} EdgeDepositNonNegative(path: seq<int>, m: nat, delta: real, a: int, b: int)
    requires m <= EdgeCount(path) && delta >= 0.0
    ensures EdgeDeposit(path, m, delta, a, b) >= 0.0
  {
    if m > 0 {
      EdgeDepositNonNegative(path, m - 1, delta, a, b);
    }
  }

  /** Every edge reinforces both directions, so the deposit is symmetric. */
  lemma {:induction false} DepositSymmetric(q: real, paths: seq<seq<int>>, lengths: seq<real>, k: nat, a: int, b: int)
    requires k <= |paths| && k <= |lengths|
    requires forall t :: 0 <= t < k ==> lengths[t] != 0.0
    ensures Deposit(q, paths, lengths, k, a, b) == Deposit(q, paths, lengths, k, b, a)
  {
    if k > 0 {
      DepositSymmetric(q, paths, lengths, k - 1, a, b);
      EdgeDepositSymmetric(paths[k - 1], EdgeCount(paths[k - 1]), q / lengths[k - 1], a, b);
    }
  }

  /** With a non-negative q and positive lengths nothing negative is deposited. */
  lemma {:induction false} DepositNonNegative(q: real, paths: seq<seq<int>>, lengths: seq<real>, k: nat, a: int, b: int)
    requires k <= |paths| && k <= |lengths|
    requires forall t :: 0 <= t < k ==> lengths[t] > 0.0
    requires q >= 0.0
    ensures Deposit(q, paths, lengths, k, a, b) >= 0.0
  {
    if k > 0 {
      DepositNonNegative(q, paths, lengths, k - 1, a, b);
      assert q / lengths[k - 1] >= 0.0;
      EdgeDepositNonNegative(paths[k - 1], EdgeCount(paths[k - 1]), q / lengths[k - 1], a, b);
    }
  }

  lemma NonNegativeProduct(x: real, y: real)
    requires x >= 0.0 && y >= 0.0
    ensures x * y >= 0.0
  {
  }

  /** An entry after evaporation: `pheromone * (1 - rho)`. */
  function Evaporated(pheromone: real, rho: real): real
  {
    pheromone * (1.0 - rho)
  }

  /** The evaporation loops of `_update_pheromone`: every entry is scaled by `1 - rho`. */
  method Evaporate(pher: array2<real>, rho: real)
    modifies pher
    ensures forall a, b :: 0 <= a < pher.Length0 && 0 <= b < pher.Length1 ==>
      pher[a, b] == Evaporated(old(pher[a, b]), rho)
  {
    for i := 0 to pher.Length0
      invariant forall a, b :: 0 <= a < pher.Length0 && 0 <= b < pher.Length1 ==>
        pher[a, b] == (if a < i then Evaporated(old(pher[a, b]), rho) else old(pher[a, b]))
    {
      for j := 0 to pher.Length1
        invariant forall a, b :: 0 <= a < pher.Length0 && 0 <= b < pher.Length1 ==>
          pher[a, b] == (if a < i || (a == i && b < j) then Evaporated(old(pher[a, b]), rho) else old(pher[a, b]))
      {
        pher[i, j] := pher[i, j] * (1.0 - rho);
      }
    }
  }

  /** One ant's reinforcement: `delta` is added to both directions of each edge of its path. */
  method Reinforce(pher: array2<real>, path: seq<int>, delta: real)
    requires pher.Length0 == pher.Length1 && InRange(path, pher.Length0)
    modifies pher
    ensures forall a, b :: 0 <= a < pher.Length0 && 0 <= b < pher.Length1 ==>
      pher[a, b] == old(pher[a, b]) + EdgeDeposit(path, EdgeCount(path), delta, a, b)
  {
    for idx := 0 to EdgeCount(path)
      invariant forall a, b :: 0 <= a < pher.Length0 && 0 <= b < pher.Length1 ==>
        pher[a, b] == old(pher[a, b]) + EdgeDeposit(path, idx, delta, a, b)
    {
      var i := path[idx];
      var j := path[idx + 1];
      pher[i, j] := pher[i, j] + delta;
      pher[j, i] := pher[j, i] + delta;
    }
  }

  /** `_update_pheromone`: evaporate every entry, then let each of the first
      `ants` paths add `q / length` to both directions of each of its edges. */
  method UpdatePheromone(p: Params, pher: array2<real>, paths: seq<seq<int>>, lengths: seq<real>)
    requires pher.Length0 == pher.Length1
    requires Count(p.ants) <= |paths| && Count(p.ants) <= |lengths|
    requires forall k :: 0 <= k < Count(p.ants) ==> lengths[k] != 0.0
    requires forall k :: 0 <= k < Count(p.ants) ==> InRange(paths[k], pher.Length0)
    modifies pher
    ensures forall i, j :: 0 <= i < pher.Length0 && 0 <= j < pher.Length1 ==>
      pher[i, j] == Evaporated(old(pher[i, j]), p.rho) + Deposit(p.q, paths, lengths, Count(p.ants), i, j)
    ensures forall i, j :: 0 <= i < pher.Length0 && 0 <= j < pher.Length1 && old(pher[i, j]) == old(pher[j, i]) ==>
      pher[i, j] == pher[j, i]
    ensures (0.0 <= p.rho <= 1.0 && p.q >= 0.0 && forall k :: 0 <= k < Count(p.ants) ==> lengths[k] > 0.0) ==>
      forall i, j :: 0 <= i < pher.Length0 && 0 <= j < pher.Length1 && old(pher[i, j]) >= 0.0 ==> pher[i, j] >= 0.0
  {
    var n := pher.Length0;
    Evaporate(pher, p.rho);
    for k := 0 to Count(p.ants)
      invariant forall a, b :: 0 <= a < n && 0 <= b < n ==>
        pher[a, b] == Evaporated(old(pher[a, b]), p.rho) + Deposit(p.q, paths, lengths, k, a, b)
    {
      Reinforce(pher, paths[k], p.q / lengths[k]);
    }
    forall a, b | 0 <= a < n && 0 <= b < n && old(pher[a, b]) == old(pher[b, a])
      ensures pher[a, b] == pher[b, a]
    {
      DepositSymmetric(p.q, paths, lengths, Count(p.ants), a, b);
    }
    if 0.0 <= p.rho <= 1.0 && p.q >= 0.0 && forall k :: 0 <= k < Count(p.ants) ==> lengths[k] > 0.0 {
      forall a, b | 0 <= a < n && 0 <= b < n && old(pher[a, b]) >= 0.0
        ensures pher[a, b] >= 0.0
      {
        DepositNonNegative(p.q, paths, lengths, Count(p.ants), a, b);
        NonNegativeProduct(old(pher[a, b]), 1.0 - p.rho);
      }
    }
  }

  // ---------------------------------------------------------------------------
  // solve_tsp

  /** `[[1.0] * n for _ in range(n)]`. */
  method InitialPheromone(n: nat) returns (pher: array2<real>)
    ensures fresh(pher) && pher.Length0 == n && pher.Length1 == n
    ensures forall i, j :: 0 <= i < n && 0 <= j < n ==> pher[i, j] == 1.0
  {
    pher := new real[n, n]((i, j) => 1.0);
  }

  /** The index a strict `<` scan over the lengths settles on: the first minimum. */
  function FirstMin(s: seq<real>): (m: nat)
    requires |s| > 0
    ensures m < |s|
  {
    if |s| == 1 then 0
    else
      var m := FirstMin(s[..|s| - 1]);
      if s[|s| - 1] < s[m] then |s| - 1 else m
  }

  /** m holds a minimum of s, and every entry before it is strictly larger. */
  predicate IsEarliestMinimum(s: seq<real>, m: int)
  {
    0 <= m < |s| &&
    (forall k :: 0 <= k < |s| ==> s[m] <= s[k]) &&
    (forall k :: 0 <= k < m ==> s[m] < s[k])
  }

  /** At most one index is the earliest minimum. */
  lemma EarliestMinimumIsUnique(s: seq<real>, m1: int, m2: int)
    requires IsEarliestMinimum(s, m1) && IsEarliestMinimum(s, m2)
    ensures m1 == m2
  {
    assert s[m1] <= s[m2] && s[m2] <= s[m1];
  }

  /** The scan settles on the first minimum: no larger than any entry and
      strictly smaller than every entry before it. */
  lemma {:induction false} FirstMinIsEarliestMinimum(s: seq<real>)
    requires |s| > 0
    ensures IsEarliestMinimum(s, FirstMin(s))
  {
    if |s| > 1 {
      var prefix := s[..|s| - 1];
      FirstMinIsEarliestMinimum(prefix);
      assert forall k :: 0 <= k < |prefix| ==> prefix[k] == s[k];
    }
  }

  /** The best tour held after a run, and its length (`inf` before any tour). */
  datatype Best = Best(indices: seq<int>, length: Length)

  /** What the running minimum holds after the given tours, in order. */
  function BestSoFar(tours: seq<seq<int>>, lengths: seq<real>): Best
    requires |tours| == |lengths|
  {
    if |tours| == 0 then Best([], Infinite)
    else Best(tours[FirstMin(lengths)], Finite(lengths[FirstMin(lengths)]))
  }

  /** One more tour replaces the best exactly when it is strictly shorter. */
  lemma BestSoFarStep(tours: seq<seq<int>>, lengths: seq<real>, t: seq<int>, l: real)
    requires |tours| == |lengths|
    ensures BestSoFar(tours + [t], lengths + [l]) ==
      if Finite(l).Less(BestSoFar(tours, lengths).length) then Best(t, Finite(l)) else BestSoFar(tours, lengths)
    ensures BestSoFar(tours + [t], lengths + [l]).length.AtMost(BestSoFar(tours, lengths).length)
  {
    var s := lengths + [l];
    assert s[..|s| - 1] == lengths;
    if |tours| > 0 {
      var m := FirstMin(lengths);
      assert (tours + [t])[m] == tours[m];
    }
  }

  /** Each entry of the sequence is no longer than the ones before it. */
  predicate NonIncreasing(c: seq<Length>)
  {
    forall i, j :: 0 <= i <= j < |c| ==> c[j].AtMost(c[i])
  }

  /** The convergence trace so far never increases and ends at the current best,
      which is no longer than anything recorded. */
  predicate Trace(convergence: seq<Length>, best: Length)
  {
    NonIncreasing(convergence) &&
    (forall i :: 0 <= i < |convergence| ==> best.AtMost(convergence[i])) &&
    (|convergence| > 0 ==> convergence[|convergence| - 1] == best)
  }

  lemma TraceExtend(convergence: seq<Length>, best: Length, best': Length)
    requires Trace(convergence, best) && best'.AtMost(best)
    ensures Trace(convergence + [best'], best')
  {
    var c := convergence + [best'];
    forall i, j | 0 <= i <= j < |c|
      ensures c[j].AtMost(c[i])
    {
      if j == |c| - 1 && i < j {
        assert best.AtMost(c[i]);
      }
    }
  }

  /** `i * a` as repeated addition, the number of tours after i iterations of a ants. */
  function Product(i: nat, a: nat): nat
  {
    if i == 0 then 0 else Product(i - 1, a) + a
  }

  lemma PositiveProduct(i: int, a: int)
    requires i > 0 && a > 0
    ensures i * a > 0
  {
  }

  lemma {:induction false} ProductIsMultiplication(i: nat, a: nat)
    ensures Product(i, a) == i * a
  {
    if i > 0 {
      ProductIsMultiplication(i - 1, a);
    }
  }

  /** `rnd` holds a shuffled order, and a draw per step, for every ant of every iteration. */
  ghost predicate Supplies(rnd: seq<seq<AntRandomness>>, p: Params, n: nat)
  {
    |rnd| >= Count(p.iterations) &&
    forall it :: 0 <= it < Count(p.iterations) ==>
      |rnd[it]| >= Count(p.ants) &&
      forall a :: 0 <= a < Count(p.ants) ==>
        IsOrder(rnd[it][a].order, n) && |rnd[it][a].draws| >= n - 1
  }

  /** One ant's work in an iteration: build a tour, measure it, and update the
      running minimum when the tour is strictly shorter. */
  method AntStep(p: Params, lib: MathLib, dist: seq<seq<real>>, pher: array2<real>, ghost ph: seq<seq<real>>,
                 randomness: AntRandomness, best: Best, ghost tours: seq<seq<int>>, ghost lengths: seq<real>)
    returns (path: seq<int>, length: real, best': Best)
    requires Matrices(dist, pher) && |dist| >= 1 && ph == Snapshot(pher)
    requires IsOrder(randomness.order, |dist|) && |randomness.draws| >= |dist| - 1
    requires |tours| == |lengths| && best == BestSoFar(tours, lengths)
    ensures path == Tour(p, lib, dist, ph, randomness.order, randomness.draws)
    ensures IsClosedTour(path, |dist|) && InRange(path, |dist|) && length == PathSum(dist, path)
    ensures best' == BestSoFar(tours + [path], lengths + [length])
    ensures best'.length.AtMost(best.length)
  {
    path := CreatePath(p, lib, dist, pher, randomness.order, randomness.draws);
    length := CalculatePathLength(dist, path);
    BestSoFarStep(tours, lengths, path, length);
    best' := best;
    if Finite(length).Less(best.length) {
      best' := Best(path, Finite(length));
    }
  }

  /** No length is 0, so every division by a length is defined. */
  predicate NoZeroLength(lengths: seq<real>)
  {
    forall k :: 0 <= k < |lengths| ==> lengths[k] != 0.0
  }

  /** A concatenation has no zero length exactly when neither part has one. */
  lemma NoZeroLengthAppend(a: seq<real>, b: seq<real>)
    ensures NoZeroLength(a + b) <==> NoZeroLength(a) && NoZeroLength(b)
  {
    if !NoZeroLength(a) {
      var k :| 0 <= k < |a| && a[k] == 0.0;
      assert (a + b)[k] == 0.0;
    } else if !NoZeroLength(b) {
      var k :| 0 <= k < |b| && b[k] == 0.0;
      assert (a + b)[|a| + k] == 0.0;
    } else {
      forall k | 0 <= k < |a + b|
        ensures (a + b)[k] != 0.0
      {
        if k >= |a| {
          assert (a + b)[k] == b[k - |a|];
        }
      }
    }
  }

  /** The randomness of one iteration supplies each of its ants. */
  lemma SuppliesIteration(rnd: seq<seq<AntRandomness>>, p: Params, n: nat, it: int)
    requires Supplies(rnd, p, n) && 0 <= it < Count(p.iterations)
    ensures it < |rnd| && |rnd[it]| >= Count(p.ants)
    ensures forall a :: 0 <= a < Count(p.ants) ==>
      IsOrder(rnd[it][a].order, n) && |rnd[it][a].draws| >= n - 1
  {
  }

  /** Every tour is a closed tour over the n cities and is paired with its length. */
  ghost predicate Measured(dist: seq<seq<real>>, tours: seq<seq<int>>, lengths: seq<real>)
    requires Square(dist)
  {
    |tours| == |lengths| &&
    forall k :: 0 <= k < |tours| ==>
      IsClosedTour(tours[k], |dist|) && InRange(tours[k], |dist|) && lengths[k] == PathSum(dist, tours[k])
  }

  lemma MeasuredAppend(dist: seq<seq<real>>, tours: seq<seq<int>>, lengths: seq<real>, paths: seq<seq<int>>, lens: seq<real>)
    requires Square(dist) && Measured(dist, tours, lengths) && Measured(dist, paths, lens)
    ensures Measured(dist, tours + paths, lengths + lens)
  {
    forall k | 0 <= k < |tours + paths|
      ensures IsClosedTour((tours + paths)[k], |dist|) && InRange((tours + paths)[k], |dist|)
        && (lengths + lens)[k] == PathSum(dist, (tours + paths)[k])
    {
      if k >= |tours| {
        assert (tours + paths)[k] == paths[k - |tours|];
      }
    }
  }

  /** One more measured tour keeps the colony's tours measured, and the tours
      seen so far then end with it. */
  lemma ColonyStep(dist: seq<seq<real>>, tours: seq<seq<int>>, lengths: seq<real>,
                   paths: seq<seq<int>>, lens: seq<real>, path: seq<int>, length: real)
    requires Square(dist) && Measured(dist, paths, lens)
    requires IsClosedTour(path, |dist|) && InRange(path, |dist|) && length == PathSum(dist, path)
    ensures Measured(dist, paths + [path], lens + [length])
    ensures tours + paths + [path] == tours + (paths + [path])
    ensures lengths + lens + [length] == lengths + (lens + [length])
  {
    MeasuredAppend(dist, paths, lens, [path], [length]);
  }

  /** The tours the first `count` ants build on the pheromone values `ph`,
      each from its own shuffled order and draws. */
  function ColonyTours(p: Params, lib: MathLib, dist: seq<seq<real>>, ph: seq<seq<real>>,
                       ants: seq<AntRandomness>, count: nat): (t: seq<seq<int>>)
    requires Shapes(dist, ph) && |dist| >= 1 && count <= |ants|
    requires forall a :: 0 <= a < count ==>
      IsOrder(ants[a].order, |dist|) && |ants[a].draws| >= |dist| - 1
    ensures |t| == count
  {
    if count == 0 then []
    else ColonyTours(p, lib, dist, ph, ants, count - 1) + [Tour(p, lib, dist, ph, ants[count - 1].order, ants[count - 1].draws)]
  }

  /** Ant a of the colony builds its tour from its own order and draws. */
  lemma {:induction false} ColonyToursFacts(p: Params, lib: MathLib, dist: seq<seq<real>>, ph: seq<seq<real>>,
                                            ants: seq<AntRandomness>, count: nat)
    requires Shapes(dist, ph) && |dist| >= 1 && count <= |ants|
    requires forall a :: 0 <= a < count ==>
      IsOrder(ants[a].order, |dist|) && |ants[a].draws| >= |dist| - 1
    ensures var t := ColonyTours(p, lib, dist, ph, ants, count);
      forall a :: 0 <= a < count ==> t[a] == Tour(p, lib, dist, ph, ants[a].order, ants[a].draws)
  {
    if count > 0 {
      var prev := ColonyTours(p, lib, dist, ph, ants, count - 1);
      ColonyToursFacts(p, lib, dist, ph, ants, count - 1);
      var t := prev + [Tour(p, lib, dist, ph, ants[count - 1].order, ants[count - 1].draws)];
      forall a | 0 <= a < count - 1
        ensures t[a] == Tour(p, lib, dist, ph, ants[a].order, ants[a].draws)
      {
        assert t[a] == prev[a];
      }
    }
  }

  /** Every tour of the colony is a closed tour over the cities. */
  lemma ColonyToursClosed(p: Params, lib: MathLib, dist: seq<seq<real>>, ph: seq<seq<real>>,
                          ants: seq<AntRandomness>, count: nat, t: seq<seq<int>>)
    requires Shapes(dist, ph) && |dist| >= 1 && count <= |ants|
    requires forall a :: 0 <= a < count ==>
      IsOrder(ants[a].order, |dist|) && |ants[a].draws| >= |dist| - 1
    requires t == ColonyTours(p, lib, dist, ph, ants, count)
    ensures |t| == count
    ensures forall a :: 0 <= a < |t| ==> IsClosedTour(t[a], |dist|) && InRange(t[a], |dist|)
  {
    ColonyToursFacts(p, lib, dist, ph, ants, count);
    forall a | 0 <= a < count
      ensures IsClosedTour(t[a], |dist|) && InRange(t[a], |dist|)
    {
      TourFacts(p, lib, dist, ph, ants[a].order, ants[a].draws);
    }
  }

  /** The length of each tour, in order. */
  function Lengths(dist: seq<seq<real>>, tours: seq<seq<int>>): (l: seq<real>)
    requires Square(dist) && forall k :: 0 <= k < |tours| ==> InRange(tours[k], |dist|)
    ensures |l| == |tours| && forall k {:trigger l[k]} :: 0 <= k < |tours| ==> l[k] == PathSum(dist, tours[k])
  {
    seq(|tours|, k requires 0 <= k < |tours| => PathSum(dist, tours[k]))
  }

  /** The ants of one iteration, each building its tour on the same pheromone. */
  method Colony(p: Params, lib: MathLib, dist: seq<seq<real>>, pher: array2<real>,
                ants: seq<AntRandomness>, best: Best, ghost tours: seq<seq<int>>, ghost lengths: seq<real>)
    returns (paths: seq<seq<int>>, lens: seq<real>, best': Best)
    requires Matrices(dist, pher) && |dist| >= 1 && |ants| >= Count(p.ants)
    requires forall a :: 0 <= a < Count(p.ants) ==>
      IsOrder(ants[a].order, |dist|) && |ants[a].draws| >= |dist| - 1
    requires |tours| == |lengths| && best == BestSoFar(tours, lengths)
    ensures paths == ColonyTours(p, lib, dist, Snapshot(pher), ants, Count(p.ants))
    ensures Measured(dist, paths, lens) && lens == Lengths(dist, paths)
    ensures best' == BestSoFar(tours + paths, lengths + lens)
    ensures best'.length.AtMost(best.length)
  {
    paths, lens, best' := [], [], best;
    ghost var ph := Snapshot(pher);
    assert tours + paths == tours && lengths + lens == lengths;
    for ant := 0 to Count(p.ants)
      invariant paths == ColonyTours(p, lib, dist, ph, ants, ant)
      invariant Measured(dist, paths, lens)
      invariant best' == BestSoFar(tours + paths, lengths + lens)
      invariant best'.length.AtMost(best.length)
    {
      var path, length;
      path, length, best' := AntStep(p, lib, dist, pher, ph, ants[ant], best', tours + paths, lengths + lens);
      ColonyStep(dist, tours, lengths, paths, lens, path, length);
      paths := paths + [path];
      lens := lens + [length];
    }
    assert lens == Lengths(dist, paths);
  }

  /** The pheromone values after `_update_pheromone`: each entry evaporated
      by `1 - rho`, plus what the first `ants` tours deposit on it. */
  function Updated(p: Params, ph: seq<seq<real>>, paths: seq<seq<int>>, lengths: seq<real>): (r: seq<seq<real>>)
    requires Square(ph) && Count(p.ants) <= |paths| && Count(p.ants) <= |lengths|
    requires forall k :: 0 <= k < Count(p.ants) ==> lengths[k] != 0.0
    ensures |r| == |ph| && Square(r)
    ensures forall i, j :: 0 <= i < |ph| && 0 <= j < |ph| ==>
      r[i][j] == Evaporated(ph[i][j], p.rho) + Deposit(p.q, paths, lengths, Count(p.ants), i, j)
  {
    seq(|ph|, i requires 0 <= i < |ph| =>
      seq(|ph|, j requires 0 <= j < |ph| =>
        Evaporated(ph[i][j], p.rho) + Deposit(p.q, paths, lengths, Count(p.ants), i, j)))
  }

  /** A matrix whose every entry is the evaporated old value plus the deposit
      is the updated pheromone. */
  lemma UpdatedEntries(p: Params, before: seq<seq<real>>, after: seq<seq<real>>, paths: seq<seq<int>>, lengths: seq<real>)
    requires Square(before) && Square(after) && |after| == |before|
    requires Count(p.ants) <= |paths| && Count(p.ants) <= |lengths|
    requires forall k :: 0 <= k < Count(p.ants) ==> lengths[k] != 0.0
    requires forall i, j :: 0 <= i < |before| && 0 <= j < |before| ==>
      after[i][j] == Evaporated(before[i][j], p.rho) + Deposit(p.q, paths, lengths, Count(p.ants), i, j)
    ensures after == Updated(p, before, paths, lengths)
  {
    MatrixEquality(after, Updated(p, before, paths, lengths));
  }

  /** `_update_pheromone` read on the rows of the array: they become `Updated`. */
  method UpdatePheromoneRows(p: Params, pher: array2<real>, paths: seq<seq<int>>, lengths: seq<real>)
    requires pher.Length0 == pher.Length1
    requires Count(p.ants) <= |paths| && Count(p.ants) <= |lengths|
    requires forall k :: 0 <= k < Count(p.ants) ==> lengths[k] != 0.0
    requires forall k :: 0 <= k < Count(p.ants) ==> InRange(paths[k], pher.Length0)
    modifies pher
    ensures Snapshot(pher) == Updated(p, old(Snapshot(pher)), paths, lengths)
  {
    ghost var before := Snapshot(pher);
    UpdatePheromone(p, pher, paths, lengths);
    ghost var after := Snapshot(pher);
    forall i, j | 0 <= i < |before| && 0 <= j < |before|
      ensures after[i][j] == Evaporated(before[i][j], p.rho) + Deposit(p.q, paths, lengths, Count(p.ants), i, j)
    {
    }
    UpdatedEntries(p, before, after, paths, lengths);
  }

  /** One iteration: the ants build their tours, then the pheromone is updated,
      which fails (`ok` false) exactly when some tour has length 0, in which
      case the pheromone is left as it was. */
  method Iteration(p: Params, lib: MathLib, dist: seq<seq<real>>, pher: array2<real>,
                   ants: seq<AntRandomness>, best: Best, ghost tours: seq<seq<int>>, ghost lengths: seq<real>)
    returns (paths: seq<seq<int>>, lens: seq<real>, best': Best, ok: bool)
    requires Matrices(dist, pher) && |dist| >= 1 && |ants| >= Count(p.ants)
    requires forall a :: 0 <= a < Count(p.ants) ==>
      IsOrder(ants[a].order, |dist|) && |ants[a].draws| >= |dist| - 1
    requires |tours| == |lengths| && best == BestSoFar(tours, lengths)
    modifies pher
    ensures paths == ColonyTours(p, lib, dist, old(Snapshot(pher)), ants, Count(p.ants))
    ensures Measured(dist, paths, lens) && lens == Lengths(dist, paths)
    ensures best' == BestSoFar(tours + paths, lengths + lens)
    ensures best'.length.AtMost(best.length)
    ensures ok <==> NoZeroLength(lens)
    ensures ok ==> Snapshot(pher) == Updated(p, old(Snapshot(pher)), paths, lens)
    ensures !ok ==> unchanged(pher)
  {
    paths, lens, best' := Colony(p, lib, dist, pher, ants, best, tours, lengths);
    ok := forall k :: 0 <= k < |lens| ==> lens[k] != 0.0;
    assert ok <==> NoZeroLength(lens);
    if ok {
      UpdatePheromoneRows(p, pher, paths, lens);
    }
  }

  /** Where a run stands after some iterations: the pheromone values, every
      tour built so far with its length, and whether every pheromone update
      so far has succeeded. */
  datatype RunState = RunState(pher: seq<seq<real>>, tours: seq<seq<int>>, lengths: seq<real>, ok: bool)

  /** `[[1.0] * n for _ in range(n)]` as a value. */
  function Ones(n: nat): (m: seq<seq<real>>)
    ensures |m| == n && Square(m)
    ensures forall i, j :: 0 <= i < n && 0 <= j < n ==> m[i][j] == 1.0
  {
    seq(n, i => seq(n, j => 1.0))
  }

  /** The state after `it` iterations of the main loop, read off the randomness:
      all pheromone 1 at the start, then one `AfterIteration` step per iteration. */
  ghost function RunSpec(p: Params, lib: MathLib, dist: seq<seq<real>>, rnd: seq<seq<AntRandomness>>, it: nat): (s: RunState)
    requires Square(dist) && |dist| >= 1 && Supplies(rnd, p, |dist|) && it <= Count(p.iterations)
    ensures Shapes(dist, s.pher) && |s.tours| == |s.lengths|
    ensures s.ok ==> NoZeroLength(s.lengths) && |s.tours| == Product(it, Count(p.ants))
    ensures !s.ok ==> !NoZeroLength(s.lengths)
    decreases it, 1
  {
    if it == 0 then RunState(Ones(|dist|), [], [], true)
    else AfterIteration(p, lib, dist, rnd, it)
  }

  /** Iteration `it - 1`: every ant builds its tour on the current pheromone,
      and the update replaces the pheromone unless a tour of length 0 stops
      the run; a stopped run stays as it is. */
  ghost function AfterIteration(p: Params, lib: MathLib, dist: seq<seq<real>>, rnd: seq<seq<AntRandomness>>, it: nat): (s: RunState)
    requires Square(dist) && |dist| >= 1 && Supplies(rnd, p, |dist|) && 1 <= it <= Count(p.iterations)
    ensures Shapes(dist, s.pher) && |s.tours| == |s.lengths|
    ensures s.ok ==> NoZeroLength(s.lengths) && |s.tours| == Product(it, Count(p.ants))
    ensures !s.ok ==> !NoZeroLength(s.lengths)
    decreases it, 0
  {
    var prev := RunSpec(p, lib, dist, rnd, it - 1);
    if !prev.ok then prev
    else
      SuppliesIteration(rnd, p, |dist|, it - 1);
      var paths := ColonyTours(p, lib, dist, prev.pher, rnd[it - 1], Count(p.ants));
      ColonyToursClosed(p, lib, dist, prev.pher, rnd[it - 1], Count(p.ants), paths);
      var lens := Lengths(dist, paths);
      NoZeroLengthAppend(prev.lengths, lens);
      if NoZeroLength(lens) then RunState(Updated(p, prev.pher, paths, lens), prev.tours + paths, prev.lengths + lens, true)
      else RunState(prev.pher, prev.tours + paths, prev.lengths + lens, false)
  }

  /** One step of the run: a stopped run stays as it is; otherwise the tours
      and lengths grow by those of the iteration's ants, the run stops exactly
      when one of them is 0, and if not the pheromone is the updated one. */
  lemma RunSpecStep(p: Params, lib: MathLib, dist: seq<seq<real>>, rnd: seq<seq<AntRandomness>>, it: nat)
      returns (paths: seq<seq<int>>, lens: seq<real>)
    requires Square(dist) && |dist| >= 1 && Supplies(rnd, p, |dist|) && 1 <= it <= Count(p.iterations)
    ensures var prev := RunSpec(p, lib, dist, rnd, it - 1);
      !prev.ok ==> RunSpec(p, lib, dist, rnd, it) == prev
    ensures var prev := RunSpec(p, lib, dist, rnd, it - 1);
      prev.ok ==> paths == ColonyTours(p, lib, dist, prev.pher, rnd[it - 1], Count(p.ants)) && Measured(dist, paths, lens)
    ensures var prev, s := RunSpec(p, lib, dist, rnd, it - 1), RunSpec(p, lib, dist, rnd, it);
      prev.ok ==>
        lens == Lengths(dist, paths) &&
        s.tours == prev.tours + paths && s.lengths == prev.lengths + lens &&
        (s.ok <==> NoZeroLength(lens)) &&
        s.pher == (if s.ok then Updated(p, prev.pher, paths, lens) else prev.pher)
  {
    assert RunSpec(p, lib, dist, rnd, it) == AfterIteration(p, lib, dist, rnd, it);
    var prev := RunSpec(p, lib, dist, rnd, it - 1);
    paths, lens := [], [];
    if prev.ok {
      SuppliesIteration(rnd, p, |dist|, it - 1);
      paths := ColonyTours(p, lib, dist, prev.pher, rnd[it - 1], Count(p.ants));
      ColonyToursClosed(p, lib, dist, prev.pher, rnd[it - 1], Count(p.ants), paths);
      lens := Lengths(dist, paths);
    }
  }

  /** What one iteration computes from the state after `it` iterations (its
      tours, their lengths, whether the update succeeded and the updated
      pheromone) is the state after `it + 1`. */
  lemma IterationIsRunStep(p: Params, lib: MathLib, dist: seq<seq<real>>, rnd: seq<seq<AntRandomness>>, it: nat,
                           paths: seq<seq<int>>, lens: seq<real>, ok: bool, ph: seq<seq<real>>)
    requires Square(dist) && |dist| >= 1 && Supplies(rnd, p, |dist|) && it < Count(p.iterations)
    requires RunSpec(p, lib, dist, rnd, it).ok
    requires paths == ColonyTours(p, lib, dist, RunSpec(p, lib, dist, rnd, it).pher, rnd[it], Count(p.ants))
    requires Measured(dist, paths, lens) && lens == Lengths(dist, paths)
    requires ok <==> NoZeroLength(lens)
    requires ok ==> ph == Updated(p, RunSpec(p, lib, dist, rnd, it).pher, paths, lens)
    ensures var prev, s := RunSpec(p, lib, dist, rnd, it), RunSpec(p, lib, dist, rnd, it + 1);
      s.tours == prev.tours + paths && s.lengths == prev.lengths + lens && s.ok == ok && (ok ==> s.pher == ph)
  {
    var paths', lens' := RunSpecStep(p, lib, dist, rnd, it + 1);
  }

  /** Every tour of the run is a closed tour paired with its length. */
  lemma {:induction false} RunSpecMeasured(p: Params, lib: MathLib, dist: seq<seq<real>>, rnd: seq<seq<AntRandomness>>, it: nat)
    requires Square(dist) && |dist| >= 1 && Supplies(rnd, p, |dist|) && it <= Count(p.iterations)
    ensures var s := RunSpec(p, lib, dist, rnd, it); Measured(dist, s.tours, s.lengths)
  {
    if it > 0 {
      RunSpecMeasured(p, lib, dist, rnd, it - 1);
      var prev := RunSpec(p, lib, dist, rnd, it - 1);
      var paths, lens := RunSpecStep(p, lib, dist, rnd, it);
      if prev.ok {
        MeasuredAppend(dist, prev.tours, prev.lengths, paths, lens);
      }
    }
  }

  /** Once an iteration has failed, later iterations change nothing. */
  lemma {:induction false} RunSpecStops(p: Params, lib: MathLib, dist: seq<seq<real>>, rnd: seq<seq<AntRandomness>>, a: nat, b: nat)
    requires Square(dist) && |dist| >= 1 && Supplies(rnd, p, |dist|) && a <= b <= Count(p.iterations)
    requires !RunSpec(p, lib, dist, rnd, a).ok
    ensures RunSpec(p, lib, dist, rnd, b) == RunSpec(p, lib, dist, rnd, a)
    decreases b
  {
    if b > a {
      RunSpecStops(p, lib, dist, rnd, a, b - 1);
      var _, _ := RunSpecStep(p, lib, dist, rnd, b);
    }
  }

  /** A run that succeeds after b iterations succeeded after every a <= b. */
  lemma {:induction false} RunSpecOkBefore(p: Params, lib: MathLib, dist: seq<seq<real>>, rnd: seq<seq<AntRandomness>>, a: nat, b: nat)
    requires Square(dist) && |dist| >= 1 && Supplies(rnd, p, |dist|) && a <= b <= Count(p.iterations)
    requires RunSpec(p, lib, dist, rnd, b).ok
    ensures RunSpec(p, lib, dist, rnd, a).ok
    decreases b
  {
    if b > a {
      var _, _ := RunSpecStep(p, lib, dist, rnd, b);
      RunSpecOkBefore(p, lib, dist, rnd, a, b - 1);
    }
  }

  /** The tours and lengths before an iteration begin those after it. */
  lemma RunSpecGrowsOne(p: Params, lib: MathLib, dist: seq<seq<real>>, rnd: seq<seq<AntRandomness>>, it: nat)
    requires Square(dist) && |dist| >= 1 && Supplies(rnd, p, |dist|) && 1 <= it <= Count(p.iterations)
    ensures var u, t := RunSpec(p, lib, dist, rnd, it - 1), RunSpec(p, lib, dist, rnd, it);
      |u.tours| <= |t.tours| && t.tours[..|u.tours|] == u.tours && t.lengths[..|u.tours|] == u.lengths
  {
    var u := RunSpec(p, lib, dist, rnd, it - 1);
    var paths, lens := RunSpecStep(p, lib, dist, rnd, it);
    if u.ok {
      assert (u.tours + paths)[..|u.tours|] == u.tours;
      assert (u.lengths + lens)[..|u.tours|] == u.lengths;
    }
  }

  /** The tours and lengths after a iterations begin those after b >= a. */
  lemma {:induction false} RunSpecGrows(p: Params, lib: MathLib, dist: seq<seq<real>>, rnd: seq<seq<AntRandomness>>, a: nat, b: nat)
    requires Square(dist) && |dist| >= 1 && Supplies(rnd, p, |dist|) && a <= b <= Count(p.iterations)
    ensures var s, t := RunSpec(p, lib, dist, rnd, a), RunSpec(p, lib, dist, rnd, b);
      |s.tours| <= |t.tours| && t.tours[..|s.tours|] == s.tours && t.lengths[..|s.tours|] == s.lengths
    decreases b
  {
    if b > a {
      RunSpecGrows(p, lib, dist, rnd, a, b - 1);
      RunSpecGrowsOne(p, lib, dist, rnd, b);
      var s := RunSpec(p, lib, dist, rnd, a);
      var u := RunSpec(p, lib, dist, rnd, b - 1);
      var t := RunSpec(p, lib, dist, rnd, b);
      var m := |s.tours|;
      assert t.tours[..|u.tours|] == u.tours && t.lengths[..|u.tours|] == u.lengths;
      assert t.tours[..m] == t.tours[..|u.tours|][..m];
      assert t.lengths[..m] == t.lengths[..|u.tours|][..m];
    }
  }

  /** The length of the best tour after `it` iterations, the convergence entry
      recorded for iteration `it - 1`. */
  ghost function BestAfter(p: Params, lib: MathLib, dist: seq<seq<real>>, rnd: seq<seq<AntRandomness>>, it: nat): Length
    requires Square(dist) && |dist| >= 1 && Supplies(rnd, p, |dist|) && it <= Count(p.iterations)
  {
    var s := RunSpec(p, lib, dist, rnd, it);
    BestSoFar(s.tours, s.lengths).length
  }

  /** The convergence trace after `it` iterations: one `BestAfter` entry per
      iteration. */
  ghost function Convergence(p: Params, lib: MathLib, dist: seq<seq<real>>, rnd: seq<seq<AntRandomness>>, it: nat): seq<Length>
    requires Square(dist) && |dist| >= 1 && Supplies(rnd, p, |dist|) && it <= Count(p.iterations)
  {
    if it == 0 then [] else Convergence(p, lib, dist, rnd, it - 1) + [BestAfter(p, lib, dist, rnd, it)]
  }

  /** Entry i of the trace is the best length after i + 1 iterations. */
  lemma {:induction false} ConvergenceEntries(p: Params, lib: MathLib, dist: seq<seq<real>>, rnd: seq<seq<AntRandomness>>, it: nat)
    requires Square(dist) && |dist| >= 1 && Supplies(rnd, p, |dist|) && it <= Count(p.iterations)
    ensures var c := Convergence(p, lib, dist, rnd, it);
      |c| == it && forall i :: 0 <= i < it ==> c[i] == BestAfter(p, lib, dist, rnd, i + 1)
  {
    if it > 0 {
      ConvergenceEntries(p, lib, dist, rnd, it - 1);
      var prev := Convergence(p, lib, dist, rnd, it - 1);
      assert forall i :: 0 <= i < it - 1 ==> Convergence(p, lib, dist, rnd, it)[i] == prev[i];
    }
  }

  /** In a run that succeeds, the best length after i iterations is the best
      over the first i * ants tours of the whole run. */
  lemma RunningBest(p: Params, lib: MathLib, dist: seq<seq<real>>, rnd: seq<seq<AntRandomness>>, i: nat)
    requires Square(dist) && |dist| >= 1 && Supplies(rnd, p, |dist|) && i <= Count(p.iterations)
    requires RunSpec(p, lib, dist, rnd, Count(p.iterations)).ok
    ensures var s := RunSpec(p, lib, dist, rnd, Count(p.iterations)); var m := i * Count(p.ants);
      m <= |s.tours| && BestAfter(p, lib, dist, rnd, i) == BestSoFar(s.tours[..m], s.lengths[..m]).length
  {
    RunSpecOkBefore(p, lib, dist, rnd, i, Count(p.iterations));
    RunSpecGrows(p, lib, dist, rnd, i, Count(p.iterations));
    ProductIsMultiplication(i, Count(p.ants));
  }

  /** The best of a non-empty set of measured tours is one of them, the
      earliest shortest: a closed tour whose length is its path sum. */
  lemma BestIsMeasured(dist: seq<seq<real>>, tours: seq<seq<int>>, lengths: seq<real>)
    requires Square(dist) && Measured(dist, tours, lengths) && |tours| > 0
    ensures var b := BestSoFar(tours, lengths);
      IsClosedTour(b.indices, |dist|) && InRange(b.indices, |dist|) &&
      b.length == Finite(PathSum(dist, b.indices)) &&
      exists m :: IsEarliestMinimum(lengths, m) && b.indices == tours[m] && b.length == Finite(lengths[m])
  {
    FirstMinIsEarliestMinimum(lengths);
    var m := FirstMin(lengths);
    assert IsEarliestMinimum(lengths, m) && tours[m] == BestSoFar(tours, lengths).indices;
  }

  /** One pass of the main loop of `solve_tsp`: from the state after
      `iteration` iterations it reaches the state after `iteration + 1`. */
  method RunIteration(p: Params, lib: MathLib, dist: seq<seq<real>>, pher: array2<real>,
                      rnd: seq<seq<AntRandomness>>, iteration: nat, best: Best,
                      ghost tours: seq<seq<int>>, ghost lengths: seq<real>)
    returns (best': Best, ok: bool, ghost tours': seq<seq<int>>, ghost lengths': seq<real>)
    requires Matrices(dist, pher) && |dist| >= 1 && Supplies(rnd, p, |dist|) && iteration < Count(p.iterations)
    requires var s := RunSpec(p, lib, dist, rnd, iteration);
      s.ok && tours == s.tours && lengths == s.lengths && Snapshot(pher) == s.pher
    requires best == BestSoFar(tours, lengths)
    modifies pher
    ensures var s := RunSpec(p, lib, dist, rnd, iteration + 1);
      tours' == s.tours && lengths' == s.lengths && ok == s.ok && (ok ==> Snapshot(pher) == s.pher)
    ensures best' == BestSoFar(tours', lengths') && best'.length.AtMost(best.length)
  {
    var paths, lens;
    SuppliesIteration(rnd, p, |dist|, iteration);
    paths, lens, best', ok := Iteration(p, lib, dist, pher, rnd[iteration], best, tours, lengths);
    IterationIsRunStep(p, lib, dist, rnd, iteration, paths, lens, ok, Snapshot(pher));
    tours', lengths' := tours + paths, lengths + lens;
  }

  /** The main loop shared by both `solve_tsp`s: each iteration lets every ant
      build a tour, records the running minimum in the convergence trace, and
      updates the pheromone. `tours` and `lengths` list every ant's tour and
      its length in the order they were built. */
  method Run(p: Params, lib: MathLib, points: seq<Coord>, rnd: seq<seq<AntRandomness>>)
    returns (outcome: Result<Best, SolveError>, convergence: seq<Length>,
             ghost tours: seq<seq<int>>, ghost lengths: seq<real>)
    requires |points| >= 3 && Supplies(rnd, p, |points|)
    ensures var s := RunSpec(p, lib, DistanceTable(lib, points), rnd, Count(p.iterations));
      tours == s.tours && lengths == s.lengths && (outcome.Success? <==> s.ok)
    ensures Measured(DistanceTable(lib, points), tours, lengths)
    ensures outcome.Failure? ==> outcome.error == ZeroLengthTour
    ensures outcome.Success? ==>
      outcome.value == BestSoFar(tours, lengths) &&
      |convergence| == Count(p.iterations) && Trace(convergence, outcome.value.length) &&
      forall i :: 0 <= i < |convergence| ==> convergence[i] == BestAfter(p, lib, DistanceTable(lib, points), rnd, i + 1)
  {
    var n := |points|;
    var dist := DistanceMatrix(lib, points);
    var pher := InitialPheromone(n);
    MatrixEquality(Snapshot(pher), Ones(n));
    var best := Best([], Infinite);
    convergence := [];
    tours := [];
    lengths := [];
    for iteration := 0 to Count(p.iterations)
      invariant RunSpec(p, lib, dist, rnd, iteration).ok
      invariant tours == RunSpec(p, lib, dist, rnd, iteration).tours
      invariant lengths == RunSpec(p, lib, dist, rnd, iteration).lengths
      invariant Snapshot(pher) == RunSpec(p, lib, dist, rnd, iteration).pher
      invariant best == BestSoFar(tours, lengths)
      invariant |convergence| == iteration && Trace(convergence, best.length)
      invariant convergence == Convergence(p, lib, dist, rnd, iteration)
    {
      var previous := best;
      var ok;
      best, ok, tours, lengths := RunIteration(p, lib, dist, pher, rnd, iteration, best, tours, lengths);
      assert best.length == BestAfter(p, lib, dist, rnd, iteration + 1);
      TraceExtend(convergence, previous.length, best.length);
      convergence := convergence + [best.length];
      if !ok {
        RunSpecStops(p, lib, dist, rnd, iteration + 1, Count(p.iterations));
        RunSpecMeasured(p, lib, dist, rnd, Count(p.iterations));
        outcome := Failure(ZeroLengthTour);
        return;
      }
    }
    RunSpecMeasured(p, lib, dist, rnd, Count(p.iterations));
    ConvergenceEntries(p, lib, dist, rnd, Count(p.iterations));
    outcome := Success(best);
  }

  /** What `solve_tsp` of the algorithm object returns for these points and
      this randomness. */
  ghost function Solution(p: Params, lib: MathLib, points: seq<Coord>, rnd: seq<seq<AntRandomness>>): Result<Path, SolveError>
    requires |points| >= 3 ==> Supplies(rnd, p, |points|)
  {
    if |points| < 3 then Failure(TooFewPoints)
    else
      var s := RunSpec(p, lib, DistanceTable(lib, points), rnd, Count(p.iterations));
      if !s.ok then Failure(ZeroLengthTour)
      else
        var b := BestSoFar(s.tours, s.lengths);
        Success(Path(b.indices, b.length, SolutionName))
  }

  /** A solve fails with the three-point error exactly when there are fewer
      than 3 points, and otherwise only when some tour has length 0. A solved
      run builds `iterations * ants` tours, and with at least one of each the
      answer is the earliest shortest of them: a closed tour over all points
      whose length is its path sum. Without ants or iterations it is empty
      with infinite length. */
  lemma SolutionFacts(p: Params, lib: MathLib, points: seq<Coord>, rnd: seq<seq<AntRandomness>>)
    requires |points| >= 3 ==> Supplies(rnd, p, |points|)
    ensures var r := Solution(p, lib, points, rnd);
      (r == Failure(TooFewPoints) <==> |points| < 3) &&
      (r.Success? ==> r.value.name == SolutionName) &&
      (r.Success? && (p.ants < 1 || p.iterations < 1) ==> r.value.indices == [] && r.value.length == Infinite)
    ensures |points| >= 3 ==>
      var dist := DistanceTable(lib, points);
      var s := RunSpec(p, lib, dist, rnd, Count(p.iterations));
      var r := Solution(p, lib, points, rnd);
      Measured(dist, s.tours, s.lengths) &&
      (r.Failure? ==> r.error == ZeroLengthTour && !NoZeroLength(s.lengths)) &&
      (r.Success? ==> NoZeroLength(s.lengths) && |s.tours| == Count(p.iterations) * Count(p.ants)) &&
      (r.Success? && p.ants >= 1 && p.iterations >= 1 ==>
        IsClosedTour(r.value.indices, |points|) && InRange(r.value.indices, |points|) &&
        r.value.length == Finite(PathSum(dist, r.value.indices)) &&
        exists m :: IsEarliestMinimum(s.lengths, m) &&
          r.value.indices == s.tours[m] && r.value.length == Finite(s.lengths[m]))
  {
    if |points| >= 3 {
      var dist := DistanceTable(lib, points);
      var s := RunSpec(p, lib, dist, rnd, Count(p.iterations));
      RunSpecMeasured(p, lib, dist, rnd, Count(p.iterations));
      ProductIsMultiplication(Count(p.iterations), Count(p.ants));
      if s.ok {
        if Count(p.ants) > 0 && Count(p.iterations) > 0 {
          PositiveProduct(Count(p.iterations), Count(p.ants));
          BestIsMeasured(dist, s.tours, s.lengths);
        } else {
          assert Count(p.iterations) * Count(p.ants) == 0;
        }
      }
    }
  }

  /** `solve_tsp` of the algorithm object: the three-point guard, then the run,
      returning the best tour under the name "ACO Solution". */
  method SolveTsp(p: Params, lib: MathLib, points: seq<Coord>, rnd: seq<seq<AntRandomness>>)
    returns (result: Result<Path, SolveError>, ghost tours: seq<seq<int>>, ghost lengths: seq<real>)
    requires |points| >= 3 ==> Supplies(rnd, p, |points|)
    ensures result == Solution(p, lib, points, rnd)
    ensures |points| >= 3 ==>
      var s := RunSpec(p, lib, DistanceTable(lib, points), rnd, Count(p.iterations));
      tours == s.tours && lengths == s.lengths && Measured(DistanceTable(lib, points), tours, lengths)
    ensures result == Failure(TooFewPoints) <==> |points| < 3
    ensures result.Failure? && |points| >= 3 ==> result.error == ZeroLengthTour && !NoZeroLength(lengths)
    ensures result.Success? ==> result.value.name == SolutionName && |tours| == Count(p.iterations) * Count(p.ants)
    ensures result.Success? && (p.ants < 1 || p.iterations < 1) ==>
      result.value.indices == [] && result.value.length == Infinite
    ensures result.Success? && p.ants >= 1 && p.iterations >= 1 ==>
      IsClosedTour(result.value.indices, |points|) && InRange(result.value.indices, |points|) &&
      result.value.length == Finite(PathSum(DistanceTable(lib, points), result.value.indices)) &&
      exists m :: IsEarliestMinimum(lengths, m) &&
        result.value.indices == tours[m] && result.value.length == Finite(lengths[m])
  {
    SolutionFacts(p, lib, points, rnd);
    if |points| < 3 {
      return Failure(TooFewPoints), [], [];
    }
    var outcome, convergence;
    outcome, convergence, tours, lengths := Run(p, lib, points, rnd);
    if outcome.Failure? {
      return Failure(outcome.error), tours, lengths;
    }
    result := Success(Path(outcome.value.indices, outcome.value.length, SolutionName));
  }
}
