# Simulated annealing for the 0/1 knapsack problem, in Dafny

This project models the optimiser in `knapsack_algorithm.py` and proves properties of it. The optimiser picks a
subset of items (name, value, weight) to maximise total value while keeping total weight within a capacity. It
runs simulated annealing:

- Each step proposes a neighbour by flipping one random bit of the current selection vector.
- A feasible neighbour is committed when it is better, or when a temperature-dependent random draw accepts it even
  though it is worse. A neighbour over capacity is never committed.
- The best feasible selection seen so far is tracked.
- The temperature is multiplied by the cooling rate at the end of every one of exactly `max_iterations`
  iterations.

The project also models the small generator of synthetic item sets in the same file.

The files:

- `scoring.dfy` (module `Scoring`): the score of a selection vector (`Total`, `SolutionValueWeight`), the
  one-bit neighbour (`Flip`), the name selection (`Pick`), and their properties.
- `annealing.dfy` (module `Annealing`): one iteration as a function on the loop's variables (`Step`) and a whole run
  (`Run`, `Anneal`). It also holds the imperative engine: `KnapsackSimulatedAnnealing` is a `while` loop over
  freshly copied `array<bool>` solution vectors, and `GenerateNeighbour` copies an array and writes one index. The
  engine is proved to compute exactly `Anneal`.
- `annealing_properties.dfy` (module `AnnealingProperties`): what holds of every run, for every sequence of random
  draws.
- `generator.dfy` (module `Generator`): `generate_knapsack_data`.

Randomness is an input:

- Every iteration consumes one `Draw(index, belowProbability)`.
- `index` is the outcome of `random.randint(0, N - 1)`, so every draw must satisfy `index < N` (`ValidDraws`).
- `belowProbability` is the outcome of `random.random() < probability` for a strictly worse neighbour.
- For a neighbour that is not worse, the code sets the probability to exactly 1.0. A uniform draw from [0, 1) is
  always below 1.0, so there the worse-move test always passes (`AcceptWorse`).
- As a consequence, a feasible neighbour of equal value is always committed (`CommitRule`).
- In the generator, `randint(1, m)` is `RandInt(1, m, d)` for an arbitrary natural `d`. This reaches exactly the
  values 1..m, so all possible runs are covered.

Two behaviours of the code that a reader may not expect:

- **Capacity 0 does not always select nothing.** Items may weigh 0: the entry form and the CSV loader accept any
  weight >= 0 (`ui.py:104`, `ui.py:136`). So capacity 0 guarantees only that the best weight is 0 and every
  selected item weighs 0 (`ZeroCapacity`).
  - An empty selection with best value 0 needs every weight to be positive (`ZeroCapacityPositiveWeights`,
    `GeneratedItemsAtZeroCapacity`).
  - `ZeroWeightItemSelected` is a concrete run that selects a weight-0 item at capacity 0.
- **History entries have no `accepted` flag.** The history records iteration, current value, current weight and
  working temperature. The dictionary that would hold an `accepted` flag (lines 120-126) is built and never used.
- **An empty item list fails.** It makes `randint(0, -1)` raise. The caller rejects it first (`ui.py:166`), and the
  engine requires a non-empty list.

## Model

| member | source | states |
|---|---|---|
| `Scoring.TotalNoneSelected` | knapsack_algorithm.py:50-55 | a vector with no bit set scores 0 in both sums; applied to the all-zero start this gives best value and weight (0, 0) |
| `Scoring.TotalFlip` | knapsack_algorithm.py:58-63 | flipping bit i changes a total by exactly +x[i] (bit was 0) or -x[i] (bit was 1), so recomputing from scratch agrees with an incremental update |
| `Scoring.TotalIsSumOfPick` | knapsack_algorithm.py:52-54 | the total over the set bits equals the plain sum of the elements at those positions |
| `Scoring.TotalNonNegative` | knapsack_algorithm.py:52-54 | with non-negative entries every total is non-negative |
| `Scoring.TotalCoversSelected` | knapsack_algorithm.py:52-54 | with non-negative entries the total is at least the entry of any selected position |
| `Scoring.Flip` | knapsack_algorithm.py:60-62 | the neighbour has the input's length, the bit at the chosen index inverted, and every other bit unchanged |
| `Scoring.Pick` | knapsack_algorithm.py:143 | the selection comprehension yields at most as many elements as there are items |
| `Scoring.PickMembers` | knapsack_algorithm.py:143 | an item is selected if its bit is set, and every selected element comes from a position whose bit is set |
| `Scoring.PickEmptyIff` | knapsack_algorithm.py:143 | nothing is selected exactly when no bit is set |
| `Scoring.PickIsSubsequence` | knapsack_algorithm.py:143 | the selected names are a subsequence of the item names, in original item order |
| `Annealing.Step` | knapsack_algorithm.py:80-133 | one iteration keeps the vector lengths and appends exactly one history entry |
| `Annealing.Run` | knapsack_algorithm.py:80 | a run of k draws yields vectors of the item count and exactly k history entries |
| `Annealing.RunPrefixStep` | knapsack_algorithm.py:80 | the unfolding of `Run` that the loop proof uses: the run on the first i+1 draws is one `Step` after the run on the first i |
| `Annealing.GenerateNeighbour` | knapsack_algorithm.py:58-63 | returns a fresh array equal to the input with the chosen bit flipped; the input array is not modified |
| `Annealing.CopyOf` | knapsack_algorithm.py:106 | `.copy()`: a fresh array with the same contents |
| `Annealing.KnapsackSimulatedAnnealing` | knapsack_algorithm.py:41-143 | the loop returns exactly the selected names and history of `Anneal`, for every valid sequence of draws |
| `AnnealingProperties.InitialState` | knapsack_algorithm.py:41-68 | the start state is the empty knapsack with best score (0, 0), consistent and feasible |
| `AnnealingProperties.CommitRule` | knapsack_algorithm.py:86-105 | a move commits iff it is feasible and either not worse or accepted by the draw |
| `AnnealingProperties.StepCommit` | knapsack_algorithm.py:105-108 | the current vector becomes the neighbour iff the commit rule holds; otherwise the vector and both totals are unchanged; an infeasible neighbour is never committed |
| `AnnealingProperties.StepConsistent` | knapsack_algorithm.py:105-115 | an iteration keeps current and best totals equal to their vectors' scores, both weights within capacity, and current value at most best value |
| `AnnealingProperties.StepBest` | knapsack_algorithm.py:112-115 | the best value never decreases; best vector, value and weight change together, and only to the new current state |
| `AnnealingProperties.RunConsistent` | knapsack_algorithm.py:80-117 | every state a run reaches is consistent and feasible (the invariant of the loop) |
| `AnnealingProperties.RunHistory` | knapsack_algorithm.py:129-130 | exactly one entry per iteration, entry k has iteration k, every recorded weight is within capacity and no recorded value exceeds the final best value |
| `AnnealingProperties.HistoryEntryAt` | knapsack_algorithm.py:129-130 | entry k holds the total value and total weight of the current solution after iteration k, i.e. of the run on the first k+1 draws |
| `AnnealingProperties.RunBestAttained` | knapsack_algorithm.py:112-115 | the final best value is 0 or some recorded current value, so it is the maximum of 0 and all recorded values |
| `AnnealingProperties.RunPrefix` | knapsack_algorithm.py:130 | the history is append-only and the best value monotone: the run on a prefix of the draws is a prefix of the full run |
| `AnnealingProperties.ScheduleIsPower` | knapsack_algorithm.py:133 | k cooling steps multiply the initial temperature by c^k |
| `AnnealingProperties.ClampCool` | knapsack_algorithm.py:91-92 | raising to the floor before cooling does not change the next clamped temperature |
| `AnnealingProperties.RunTemperature` | knapsack_algorithm.py:91-133 | the temperature of iteration k is max(MIN_TEMPERATURE, T0 * c^k), and the final temperature is the last entry's cooled once |
| `AnnealingProperties.TemperatureUnclamped` | knapsack_algorithm.py:133 | while T0 * c^k stays above the floor, iteration k runs at T0 * c^k and the temperature after the last iteration is T0 * c^(k+1) |
| `AnnealingProperties.CoolLowers` | knapsack_algorithm.py:133 | cooling a positive temperature by a rate in (0, 1) keeps it positive and lowers it |
| `AnnealingProperties.ScheduleDecreasing` | knapsack_algorithm.py:133 | the unclamped schedule from a positive start is positive and decreasing |
| `AnnealingProperties.TemperatureNonIncreasing` | knapsack_algorithm.py:91-92 | recorded temperatures never fall below MIN_TEMPERATURE and never rise |
| `AnnealingProperties.AnnealResult` | knapsack_algorithm.py:143 | the selected names are a subsequence of the item names; the values and weights at the selected positions sum to the best value and the best weight, which is within capacity |
| `AnnealingProperties.ZeroCapacity` | knapsack_algorithm.py:86 | at capacity 0 with non-negative weights the best weight is 0 and every selected item weighs 0 |
| `AnnealingProperties.ZeroCapacityPositiveWeights` | knapsack_algorithm.py:143 | at capacity 0 with positive weights nothing is selected and the best value is 0 |
| `AnnealingProperties.ZeroWeightItemSelected` | knapsack_algorithm.py:105-115 | the single item ("A", 5, 0) is selected at capacity 0 |
| `AnnealingProperties.GeneratedItemsAtZeroCapacity` | knapsack_algorithm.py:167-168 | on generated items (all weights >= 1) a run at capacity 0 selects nothing |
| `Generator.DecimalString` | knapsack_algorithm.py:166 | `str(n)` of a natural is a non-empty string of decimal digits |
| `Generator.ParseDecimalString` | knapsack_algorithm.py:166 | reading the decimal rendering back gives the number |
| `Generator.ProductNameInjective` | knapsack_algorithm.py:166 | `Product_<i+1>` names of different positions differ |
| `Generator.RandIntRange` | knapsack_algorithm.py:167-168 | a draw of `randint(low, high)` lies in the closed range |
| `Generator.RandIntReaches` | knapsack_algorithm.py:167-168 | every value of the closed range is the outcome of some draw |
| `Generator.GenerateKnapsackData` | knapsack_algorithm.py:154-174 | succeeds iff there are no items or both maxima are at least 1; otherwise fails on the value range first; on success three lists of length max(num_items, 0), names `Product_<i+1>`, values in [1, max_value], weights in [1, max_weight] |
| `Generator.GeneratedNamesDistinct` | knapsack_algorithm.py:166 | generated names are pairwise distinct |
| `Generator.EveryItemSetReachable` | knapsack_algorithm.py:167-168 | every list of in-range values and weights is what the generator returns for some draws |
| `Generator.DrawsFor` | knapsack_algorithm.py:167-168 | for given numbers in [1, m], draws for which `randint(1, m)` returns each of them, one draw per number |

## Left out

- Random number generation (`random.randint`, `random.random`): the outcomes are inputs (`Draw`, value and weight draws), so every statement covers every possible run.
- The acceptance probability `math.exp(max(-700, delta / T))` (lines 96-99) is floating-point numerics. Only its effect is modelled: the boolean `belowProbability`, read only when the neighbour is strictly worse.
- Temperatures are Dafny `real`, an idealisation of IEEE floats. No float-exact value is claimed.
- `time.time()` and the returned execution time (lines 39, 140) are wall-clock I/O. The engine returns the selected names and the history only.
- Logging (lines 77-78, 136-137, 146-149) and the accepted/rejected counters (lines 71-72, 109, 117) are diagnostics with no effect on the result.
- The history entries are records `HistoryEntry(iteration, value, weight, temperature)`. The text formatting of line 129 is not modelled.
- The unused `iter_info` dictionary (lines 120-126).
- numpy: the 0/1 `int` vectors are `bool` arrays and vectors, and `1 - b` is `!b`. Sums are unbounded integers, so numpy's 64-bit overflow on huge values is not modelled.
- Solution vectors during a run are values (`seq<bool>`) in the specification `Run`. The engine uses arrays and copies them wherever the source calls `.copy()`, so no two live vectors alias.
- `KnapsackSimulatedAnnealing` requires non-empty, equal-length item lists, capacity >= 0, temperature > 0, a cooling rate in (0, 1) and at least one iteration. These are the checks of the caller (`ui.py:166`, `ui.py:173`). An empty list would make `randint(0, -1)` raise inside the engine.
- ui.py (widgets, dialogs, CSV load and save) is presentation and I/O, and it is not part of this model. Its use of item names as keys (`name in selected`, `ui.py:185`) is not modelled. `GeneratedNamesDistinct` shows that generated names are safe keys.
- The default arguments of `generate_knapsack_data` (500 and 20) are not modelled; both maxima are explicit parameters.
