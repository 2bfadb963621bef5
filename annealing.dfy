/** The simulated-annealing engine for the 0/1 knapsack problem.

    The random draws of one run are an input: for every iteration a Draw gives
    the index of the bit the neighbour flips and the outcome of comparing the
    uniform draw with the acceptance probability of a worse move. The run is
    specified by the state machine Step/Run and implemented by the imperative
    method KnapsackSimulatedAnnealing, which is proved to compute it. */
module Annealing {
  import opened Scoring

  /** Floor below which the working temperature is raised before each iteration. */
  const MinTemperature: real := 0.00001

  /** The random outcomes of one iteration: the flipped index and whether the
      uniform draw fell below the acceptance probability of a worse neighbour. */
  datatype Draw = Draw(index: nat, belowProbability: bool)

  /** One history record: the iteration, the current value and weight after the
      decision, and the working temperature of that iteration. */
  datatype HistoryEntry = HistoryEntry(iteration: nat, value: int, weight: int, temperature: real)

  /** All variables the annealing loop updates. */
  datatype State = State(
    current: seq<bool>, currentValue: int, currentWeight: int,
    best: seq<bool>, bestValue: int, bestWeight: int,
    temperature: real,
    history: seq<HistoryEntry>)

  predicate ValidDraws(n: nat, draws: seq<Draw>)
  {
    forall k :: 0 <= k < |draws| ==> draws[k].index < n
  }

  /** Empty knapsack, best solution scored from a copy of it, initial temperature. */
  function Initial(values: seq<int>, weights: seq<int>, initialTemperature: real): State
    requires |values| == |weights|
  {
    var zeros := Zeros(|values|);
    var (bestValue, bestWeight) := SolutionValueWeight(values, weights, zeros);
    State(zeros, 0, 0, zeros, bestValue, bestWeight, initialTemperature, [])
  }

  /** Whether the worse-move draw accepts: the probability is exactly 1 unless
      the neighbour is strictly worse, and a uniform draw from [0, 1) is always
      below 1. */
  function AcceptWorse(newValue: int, currentValue: int, d: Draw): bool
  {
    if newValue < currentValue then d.belowProbability else true
  }

  /** The commit rule: a feasible neighbour that is better or accepted as worse. */
  predicate Commits(newValue: int, newWeight: int, currentValue: int, capacity: int, d: Draw)
  {
    newWeight <= capacity && (newValue > currentValue || AcceptWorse(newValue, currentValue, d))
  }

  /** Geometric cooling: one multiplication by the cooling rate. */
  function Cool(t: real, coolingRate: real): real
  {
    t * coolingRate
  }

  function ClampTemperature(t: real): real
  {
    if t < MinTemperature then MinTemperature else t
  }

  /** One iteration of the loop. */
  function Step(values: seq<int>, weights: seq<int>, capacity: int, coolingRate: real,
                s: State, iteration: nat, d: Draw): (r: State)
    requires |values| == |s.current| && |weights| == |s.current| && |s.best| == |s.current|
    requires d.index < |s.current|
    ensures |r.current| == |s.current| && |r.best| == |s.current|
    ensures |r.history| == |s.history| + 1
  {
    var neighbour := Flip(s.current, d.index);
    var (newValue, newWeight) := SolutionValueWeight(values, weights, neighbour);
    var temperature := ClampTemperature(s.temperature);
    var committed := Commits(newValue, newWeight, s.currentValue, capacity, d);
    var current := if committed then neighbour else s.current;
    var currentValue := if committed then newValue else s.currentValue;
    var currentWeight := if committed then newWeight else s.currentWeight;
    var improves := committed && currentValue > s.bestValue;
    var best := if improves then current else s.best;
    var bestValue := if improves then currentValue else s.bestValue;
    var bestWeight := if improves then newWeight else s.bestWeight;
    State(current, currentValue, currentWeight, best, bestValue, bestWeight,
          Cool(temperature, coolingRate),
          s.history + [HistoryEntry(iteration, currentValue, currentWeight, temperature)])
  }

  /** The state after running one iteration per draw, in order. */
  function Run(values: seq<int>, weights: seq<int>, capacity: int,
               initialTemperature: real, coolingRate: real, draws: seq<Draw>): (r: State)
    requires |values| == |weights|
    requires ValidDraws(|values|, draws)
    ensures |r.current| == |values| && |r.best| == |values| && |r.history| == |draws|
    decreases |draws|
  {
    if |draws| == 0 then Initial(values, weights, initialTemperature)
    else
      var n := |draws| - 1;
      var s := Run(values, weights, capacity, initialTemperature, coolingRate, draws[..n]);
      Step(values, weights, capacity, coolingRate, s, n, draws[n])
  }

  /** What a run returns: the names of the best solution's items and the history. */
  function Anneal(names: seq<string>, values: seq<int>, weights: seq<int>, capacity: int,
                  initialTemperature: real, coolingRate: real, draws: seq<Draw>): (seq<string>, seq<HistoryEntry>)
    requires |values| == |names| && |weights| == |names|
    requires ValidDraws(|names|, draws)
  {
    var s := Run(values, weights, capacity, initialTemperature, coolingRate, draws);
    (Pick(names, s.best), s.history)
  }

  /** Running one more draw is one more Step. */
  lemma RunPrefixStep(values: seq<int>, weights: seq<int>, capacity: int,
                      initialTemperature: real, coolingRate: real, draws: seq<Draw>, i: nat)
    requires |values| == |weights| && ValidDraws(|values|, draws) && i < |draws|
    ensures ValidDraws(|values|, draws[..i]) && ValidDraws(|values|, draws[..i + 1])
    ensures Run(values, weights, capacity, initialTemperature, coolingRate, draws[..i + 1])
         == Step(values, weights, capacity, coolingRate,
                 Run(values, weights, capacity, initialTemperature, coolingRate, draws[..i]), i, draws[i])
  {
    assert draws[..i + 1][..i] == draws[..i];
  }

  // ---------------------------------------------------------------------------
  // The imperative engine

  /** A fresh copy of a solution vector. */
  method CopyOf(a: array<bool>) returns (b: array<bool>)
    ensures fresh(b)
    ensures b[..] == a[..]
  {
    b := new bool[a.Length](i reads a requires 0 <= i < a.Length => a[i]);
  }

  /** A fresh copy of the solution with bit index inverted; the input is left alone. */
  method GenerateNeighbour(solution: array<bool>, index: nat) returns (newSolution: array<bool>)
    requires index < solution.Length
    ensures fresh(newSolution)
    ensures newSolution[..] == Flip(solution[..], index)
  {
    newSolution := CopyOf(solution);
    newSolution[index] := !newSolution[index];
  }

  /** The annealing loop: max_iterations iterations, one draw each. */
  method KnapsackSimulatedAnnealing(names: seq<string>, values: seq<int>, weights: seq<int>,
                                    capacity: int, initialTemperature: real, coolingRate: real,
                                    maxIterations: nat, draws: seq<Draw>)
    returns (selected: seq<string>, history: seq<HistoryEntry>)
    requires 0 < |names| && |values| == |names| && |weights| == |names|
    requires 0 <= capacity && 0.0 < initialTemperature && 0.0 < coolingRate < 1.0 && 0 < maxIterations
    requires |draws| == maxIterations && ValidDraws(|names|, draws)
    ensures (selected, history) == Anneal(names, values, weights, capacity, initialTemperature, coolingRate, draws)
  {
    var currentSolution := new bool[|names|](_ => false);
    var currentValue, currentWeight := 0, 0;
    var solutionHistory: seq<HistoryEntry> := [];
    var currentTemperature := initialTemperature;
    var bestSolution := CopyOf(currentSolution);
    var (bestValue, bestWeight) := SolutionValueWeight(values, weights, bestSolution[..]);
    assert currentSolution[..] == Zeros(|names|);

    var iteration := 0;
    ghost var s := Initial(values, weights, initialTemperature);
    while iteration < maxIterations
      invariant 0 <= iteration <= maxIterations
      invariant |s.current| == |names| && |s.best| == |names|
      invariant s == Run(values, weights, capacity, initialTemperature, coolingRate, draws[..iteration])
      invariant currentSolution[..] == s.current && currentValue == s.currentValue && currentWeight == s.currentWeight
      invariant bestSolution[..] == s.best && bestValue == s.bestValue && bestWeight == s.bestWeight
      invariant currentTemperature == s.temperature && solutionHistory == s.history
    {
      var newSolution := GenerateNeighbour(currentSolution, draws[iteration].index);
      var (newValue, newWeight) := SolutionValueWeight(values, weights, newSolution[..]);

      var isAcceptable := newWeight <= capacity;
      var isBetter := newValue > currentValue;
      if currentTemperature < MinTemperature {
        currentTemperature := MinTemperature;
      }
      assert currentTemperature == ClampTemperature(s.temperature);
      var acceptWorse;
      if newValue < currentValue {
        acceptWorse := draws[iteration].belowProbability;
      } else {
        acceptWorse := true;
      }

      if isAcceptable && (isBetter || acceptWorse) {
        currentSolution := CopyOf(newSolution);
        currentValue := newValue;
        currentWeight := newWeight;
        if currentValue > bestValue {
          bestSolution := CopyOf(currentSolution);
          bestValue := currentValue;
          bestWeight := newWeight;
        }
      }

      solutionHistory := solutionHistory + [HistoryEntry(iteration, currentValue, currentWeight, currentTemperature)];
      currentTemperature := Cool(currentTemperature, coolingRate);

      RunPrefixStep(values, weights, capacity, initialTemperature, coolingRate, draws, iteration);
      s := Step(values, weights, capacity, coolingRate, s, iteration, draws[iteration]);
      iteration := iteration + 1;
    }
    assert draws[..maxIterations] == draws;
    selected := Pick(names, bestSolution[..]);
    history := solutionHistory;
  }
}
