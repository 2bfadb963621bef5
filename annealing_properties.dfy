/** What holds of every annealing run, whatever the random draws. */
module AnnealingProperties {
  import opened Scoring
  import opened Annealing
  import Generator

  /** The cached totals match their bit vectors, both solutions are feasible,
      and the best value is at least the current one. */
  predicate Consistent(values: seq<int>, weights: seq<int>, capacity: int, s: State)
  {
    && |s.current| == |values| && |s.best| == |values| && |weights| == |values|
    && s.currentValue == Total(values, s.current) && s.currentWeight == Total(weights, s.current)
    && s.bestValue == Total(values, s.best) && s.bestWeight == Total(weights, s.best)
    && s.currentWeight <= capacity && s.bestWeight <= capacity
    && s.currentValue <= s.bestValue
  }

  // ---------------------------------------------------------------------------
  // One iteration

  /** The start state is the empty knapsack, whose score is (0, 0). */
  lemma InitialState(values: seq<int>, weights: seq<int>, capacity: int, initialTemperature: real)
    requires |values| == |weights| && 0 <= capacity
    ensures var s := Initial(values, weights, initialTemperature);
      && s.bestValue == 0 && s.bestWeight == 0
      && Consistent(values, weights, capacity, s)
  {
    TotalNoneSelected(values, Zeros(|values|));
    TotalNoneSelected(weights, Zeros(|values|));
  }

  /** The worse-move draw only matters for a strictly worse neighbour: a feasible
      neighbour is committed exactly when it is no worse or the draw accepts it. */
  lemma CommitRule(newValue: int, newWeight: int, currentValue: int, capacity: int, d: Draw)
    ensures Commits(newValue, newWeight, currentValue, capacity, d)
        <==> newWeight <= capacity && (newValue >= currentValue || d.belowProbability)
  {
  }

  /** The current solution moves to the neighbour exactly under the commit rule;
      otherwise the current solution and its totals are left as they were. */
  lemma StepCommit(values: seq<int>, weights: seq<int>, capacity: int, coolingRate: real,
                   s: State, iteration: nat, d: Draw)
    requires Consistent(values, weights, capacity, s) && d.index < |s.current|
    ensures var neighbour := Flip(s.current, d.index);
      var r := Step(values, weights, capacity, coolingRate, s, iteration, d);
      && (r.current == neighbour
          <==> Total(weights, neighbour) <= capacity
               && (Total(values, neighbour) >= s.currentValue || d.belowProbability))
      && (r.current != neighbour
          ==> r.current == s.current && r.currentValue == s.currentValue && r.currentWeight == s.currentWeight)
  {
    var neighbour := Flip(s.current, d.index);
    assert neighbour[d.index] != s.current[d.index];
    CommitRule(Total(values, neighbour), Total(weights, neighbour), s.currentValue, capacity, d);
  }

  /** An iteration keeps totals consistent and both solutions feasible. */
  lemma StepConsistent(values: seq<int>, weights: seq<int>, capacity: int, coolingRate: real,
                       s: State, iteration: nat, d: Draw)
    requires Consistent(values, weights, capacity, s) && d.index < |s.current|
    ensures Consistent(values, weights, capacity, Step(values, weights, capacity, coolingRate, s, iteration, d))
  {
  }

  /** The best value never decreases, and the best solution, value and weight
      change together, only when the new current value beats the best. */
  lemma StepBest(values: seq<int>, weights: seq<int>, capacity: int, coolingRate: real,
                 s: State, iteration: nat, d: Draw)
    requires Consistent(values, weights, capacity, s) && d.index < |s.current|
    ensures var r := Step(values, weights, capacity, coolingRate, s, iteration, d);
      && s.bestValue <= r.bestValue
      && (r.bestValue == s.bestValue ==> r.best == s.best && r.bestWeight == s.bestWeight)
      && (r.bestValue != s.bestValue
          ==> r.best == r.current && r.bestValue == r.currentValue && r.bestWeight == r.currentWeight)
  {
  }

  // ---------------------------------------------------------------------------
  // Whole runs

  /** Every state a run reaches is consistent and feasible. */
  lemma {:induction false} RunConsistent(values: seq<int>, weights: seq<int>, capacity: int,
                                         initialTemperature: real, coolingRate: real, draws: seq<Draw>)
    requires |values| == |weights| && 0 <= capacity && ValidDraws(|values|, draws)
    ensures Consistent(values, weights, capacity,
                       Run(values, weights, capacity, initialTemperature, coolingRate, draws))
    decreases |draws|
  {
    if |draws| == 0 {
      InitialState(values, weights, capacity, initialTemperature);
    } else {
      var n := |draws| - 1;
      RunConsistent(values, weights, capacity, initialTemperature, coolingRate, draws[..n]);
      StepConsistent(values, weights, capacity, coolingRate,
                     Run(values, weights, capacity, initialTemperature, coolingRate, draws[..n]), n, draws[n]);
    }
  }

  /** Entry k records the total value and weight of the current solution
      after iteration k, that is, of the run on the first k + 1 draws. */
  lemma HistoryEntryAt(values: seq<int>, weights: seq<int>, capacity: int,
                       initialTemperature: real, coolingRate: real, draws: seq<Draw>, k: nat)
    requires |values| == |weights| && 0 <= capacity && ValidDraws(|values|, draws) && k < |draws|
    ensures ValidDraws(|values|, draws[..k + 1])
    ensures var p := Run(values, weights, capacity, initialTemperature, coolingRate, draws[..k + 1]);
      var r := Run(values, weights, capacity, initialTemperature, coolingRate, draws);
      && r.history[k].value == Total(values, p.current)
      && r.history[k].weight == Total(weights, p.current)
  {
    RunPrefix(values, weights, capacity, initialTemperature, coolingRate, draws, k + 1);
    RunPrefixStep(values, weights, capacity, initialTemperature, coolingRate, draws, k);
    RunConsistent(values, weights, capacity, initialTemperature, coolingRate, draws[..k + 1]);
  }

  /** One history entry per iteration, in iteration order; every recorded state
      (see HistoryEntryAt for what entry k holds) is feasible and no better than
      the best value at the end. */
  lemma {:induction false} RunHistory(values: seq<int>, weights: seq<int>, capacity: int,
                                      initialTemperature: real, coolingRate: real, draws: seq<Draw>)
    requires |values| == |weights| && 0 <= capacity && ValidDraws(|values|, draws)
    ensures var r := Run(values, weights, capacity, initialTemperature, coolingRate, draws);
      && |r.history| == |draws|
      && forall k :: 0 <= k < |draws| ==>
           r.history[k].iteration == k && r.history[k].weight <= capacity && r.history[k].value <= r.bestValue
    decreases |draws|
  {
    if |draws| > 0 {
      var n := |draws| - 1;
      var s := Run(values, weights, capacity, initialTemperature, coolingRate, draws[..n]);
      RunHistory(values, weights, capacity, initialTemperature, coolingRate, draws[..n]);
      RunConsistent(values, weights, capacity, initialTemperature, coolingRate, draws[..n]);
      StepConsistent(values, weights, capacity, coolingRate, s, n, draws[n]);
      StepBest(values, weights, capacity, coolingRate, s, n, draws[n]);
      var r := Step(values, weights, capacity, coolingRate, s, n, draws[n]);
      assert r.history == s.history + [r.history[n]];
      assert forall k :: 0 <= k < n ==> r.history[k] == s.history[k];
    }
  }

  /** The best value is the empty knapsack's 0 or a value the history records:
      with RunHistory, it is the maximum of 0 and all recorded values. */
  lemma {:induction false} RunBestAttained(values: seq<int>, weights: seq<int>, capacity: int,
                                           initialTemperature: real, coolingRate: real, draws: seq<Draw>)
    requires |values| == |weights| && 0 <= capacity && ValidDraws(|values|, draws)
    ensures var r := Run(values, weights, capacity, initialTemperature, coolingRate, draws);
      r.bestValue == 0 || exists k :: 0 <= k < |draws| && r.history[k].value == r.bestValue
    decreases |draws|
  {
    if |draws| == 0 {
      InitialState(values, weights, capacity, initialTemperature);
    } else {
      var n := |draws| - 1;
      var s := Run(values, weights, capacity, initialTemperature, coolingRate, draws[..n]);
      RunBestAttained(values, weights, capacity, initialTemperature, coolingRate, draws[..n]);
      RunConsistent(values, weights, capacity, initialTemperature, coolingRate, draws[..n]);
      StepBest(values, weights, capacity, coolingRate, s, n, draws[n]);
      var r := Step(values, weights, capacity, coolingRate, s, n, draws[n]);
      if r.bestValue != 0 {
        if r.bestValue == s.bestValue {
          var k :| 0 <= k < n && s.history[k].value == s.bestValue;
          assert r.history[k] == s.history[k];
        } else {
          assert r.history[n].value == r.bestValue;
        }
      }
    }
  }

  /** A run's history only grows and its best value only rises: the run on a
      prefix of the draws is a prefix of the run on all of them. */
  lemma {:induction false} RunPrefix(values: seq<int>, weights: seq<int>, capacity: int,
                                     initialTemperature: real, coolingRate: real, draws: seq<Draw>, j: nat)
    requires |values| == |weights| && 0 <= capacity && ValidDraws(|values|, draws) && j <= |draws|
    ensures ValidDraws(|values|, draws[..j])
    ensures var p := Run(values, weights, capacity, initialTemperature, coolingRate, draws[..j]);
      var r := Run(values, weights, capacity, initialTemperature, coolingRate, draws);
      p.history == r.history[..j] && p.bestValue <= r.bestValue
    decreases |draws|
  {
    if j < |draws| {
      var n := |draws| - 1;
      assert draws[..n][..j] == draws[..j];
      RunPrefix(values, weights, capacity, initialTemperature, coolingRate, draws[..n], j);
      var s := Run(values, weights, capacity, initialTemperature, coolingRate, draws[..n]);
      RunConsistent(values, weights, capacity, initialTemperature, coolingRate, draws[..n]);
      StepBest(values, weights, capacity, coolingRate, s, n, draws[n]);
      var r := Step(values, weights, capacity, coolingRate, s, n, draws[n]);
      assert r.history[..j] == s.history[..j];
    } else {
      assert draws[..j] == draws;
    }
  }

  // ---------------------------------------------------------------------------
  // Temperature

  /** The unclamped geometric schedule: the initial temperature cooled k times. */
  function Schedule(initialTemperature: real, coolingRate: real, k: nat): real
  {
    if k == 0 then initialTemperature else Cool(Schedule(initialTemperature, coolingRate, k - 1), coolingRate)
  }

  function Pow(c: real, k: nat): real
  {
    if k == 0 then 1.0 else c * Pow(c, k - 1)
  }

  /** The schedule is the closed form T0 * c^k. */
  lemma {:induction false} ScheduleIsPower(initialTemperature: real, coolingRate: real, k: nat)
    ensures Schedule(initialTemperature, coolingRate, k) == initialTemperature * Pow(coolingRate, k)
  {
    if k > 0 {
      ScheduleIsPower(initialTemperature, coolingRate, k - 1);
      var p := Pow(coolingRate, k - 1);
      calc {
        Schedule(initialTemperature, coolingRate, k);
        (initialTemperature * p) * coolingRate;
        { assert (initialTemperature * p) * coolingRate == initialTemperature * (coolingRate * p); }
        initialTemperature * Pow(coolingRate, k);
      }
    }
  }

  /** Cooling after the floor clamp, then clamping, is clamping the plain cooled value. */
  lemma ClampCool(t: real, coolingRate: real)
    requires 0.0 < coolingRate < 1.0
    ensures ClampTemperature(Cool(ClampTemperature(t), coolingRate)) == ClampTemperature(Cool(t, coolingRate))
  {
    if t < MinTemperature {
      assert MinTemperature * coolingRate < MinTemperature;
      if 0.0 <= t {
        assert t * coolingRate <= t;
      } else {
        assert t * coolingRate < 0.0;
      }
    }
  }

  /** The temperature of iteration k is the schedule's value raised to the floor;
      the temperature after the last iteration is that of the last entry, cooled. */
  lemma {:induction false} RunTemperature(values: seq<int>, weights: seq<int>, capacity: int,
                                          initialTemperature: real, coolingRate: real, draws: seq<Draw>)
    requires |values| == |weights| && ValidDraws(|values|, draws) && 0.0 < coolingRate < 1.0
    ensures var r := Run(values, weights, capacity, initialTemperature, coolingRate, draws);
      && ClampTemperature(r.temperature) == ClampTemperature(Schedule(initialTemperature, coolingRate, |draws|))
      && (forall k :: 0 <= k < |draws| ==>
            r.history[k].temperature == ClampTemperature(Schedule(initialTemperature, coolingRate, k)))
      && (0 < |draws| ==> r.temperature == Cool(r.history[|draws| - 1].temperature, coolingRate))
    decreases |draws|
  {
    if |draws| > 0 {
      var n := |draws| - 1;
      var s := Run(values, weights, capacity, initialTemperature, coolingRate, draws[..n]);
      RunTemperature(values, weights, capacity, initialTemperature, coolingRate, draws[..n]);
      var r := Step(values, weights, capacity, coolingRate, s, n, draws[n]);
      assert forall k :: 0 <= k < n ==> r.history[k] == s.history[k];
      ClampCool(s.temperature, coolingRate);
      ClampCool(Schedule(initialTemperature, coolingRate, n), coolingRate);
    }
  }

  /** While the schedule stays above the floor, iteration k runs at exactly
      T0 * c^k and the temperature after it is T0 * c^(k+1). */
  lemma TemperatureUnclamped(values: seq<int>, weights: seq<int>, capacity: int,
                             initialTemperature: real, coolingRate: real, draws: seq<Draw>, k: nat)
    requires |values| == |weights| && ValidDraws(|values|, draws) && 0.0 < coolingRate < 1.0
    requires k < |draws| && MinTemperature <= initialTemperature * Pow(coolingRate, k)
    ensures var r := Run(values, weights, capacity, initialTemperature, coolingRate, draws);
      && r.history[k].temperature == initialTemperature * Pow(coolingRate, k)
      && (k == |draws| - 1 ==> r.temperature == initialTemperature * Pow(coolingRate, k + 1))
  {
    RunTemperature(values, weights, capacity, initialTemperature, coolingRate, draws);
    ScheduleIsPower(initialTemperature, coolingRate, k);
    ScheduleIsPower(initialTemperature, coolingRate, k + 1);
  }

  /** Cooling a positive temperature keeps it positive and lowers it. */
  lemma CoolLowers(t: real, coolingRate: real)
    requires 0.0 < t && 0.0 < coolingRate < 1.0
    ensures 0.0 < Cool(t, coolingRate) < t
  {
    var cooled := Cool(t, coolingRate);
    assert cooled == t * coolingRate;
    assert cooled < t by { assert t * coolingRate < t * 1.0; }
    assert 0.0 < cooled;
  }

  /** With a positive start the schedule is positive and decreasing. */
  lemma {:induction false} ScheduleDecreasing(initialTemperature: real, coolingRate: real, j: nat, k: nat)
    requires 0.0 < initialTemperature && 0.0 < coolingRate < 1.0 && j <= k
    ensures 0.0 < Schedule(initialTemperature, coolingRate, k) <= Schedule(initialTemperature, coolingRate, j)
    decreases k
  {
    if j < k {
      ScheduleDecreasing(initialTemperature, coolingRate, j, k - 1);
      CoolLowers(Schedule(initialTemperature, coolingRate, k - 1), coolingRate);
    } else if k > 0 {
      ScheduleDecreasing(initialTemperature, coolingRate, k - 1, k - 1);
      CoolLowers(Schedule(initialTemperature, coolingRate, k - 1), coolingRate);
    }
  }

  /** Recorded temperatures never fall below the floor and never rise. */
  lemma TemperatureNonIncreasing(values: seq<int>, weights: seq<int>, capacity: int,
                                 initialTemperature: real, coolingRate: real, draws: seq<Draw>, j: nat, k: nat)
    requires |values| == |weights| && ValidDraws(|values|, draws)
    requires 0.0 < initialTemperature && 0.0 < coolingRate < 1.0
    requires j <= k < |draws|
    ensures var r := Run(values, weights, capacity, initialTemperature, coolingRate, draws);
      MinTemperature <= r.history[k].temperature <= r.history[j].temperature
  {
    RunTemperature(values, weights, capacity, initialTemperature, coolingRate, draws);
    ScheduleDecreasing(initialTemperature, coolingRate, j, k);
  }

  // ---------------------------------------------------------------------------
  // The returned selection

  /** The selected names are the best solution's items in item order; their
      values and weights add up to the best value and the best weight, which is
      within capacity; the history has one entry per iteration. */
  lemma AnnealResult(names: seq<string>, values: seq<int>, weights: seq<int>, capacity: int,
                     initialTemperature: real, coolingRate: real, draws: seq<Draw>)
    requires |values| == |names| && |weights| == |names| && 0 <= capacity && ValidDraws(|names|, draws)
    ensures var (selected, history) := Anneal(names, values, weights, capacity, initialTemperature, coolingRate, draws);
      var s := Run(values, weights, capacity, initialTemperature, coolingRate, draws);
      && IsSubsequence(selected, names)
      && Sum(Pick(values, s.best)) == s.bestValue
      && Sum(Pick(weights, s.best)) == s.bestWeight <= capacity
      && |history| == |draws|
  {
    var s := Run(values, weights, capacity, initialTemperature, coolingRate, draws);
    RunConsistent(values, weights, capacity, initialTemperature, coolingRate, draws);
    PickIsSubsequence(names, s.best);
    TotalIsSumOfPick(values, s.best);
    TotalIsSumOfPick(weights, s.best);
  }

  /** With capacity 0 and non-negative weights, the best weight is 0 and only
      items of weight 0 can be selected. */
  lemma ZeroCapacity(names: seq<string>, values: seq<int>, weights: seq<int>,
                     initialTemperature: real, coolingRate: real, draws: seq<Draw>)
    requires |values| == |names| && |weights| == |names| && ValidDraws(|names|, draws)
    requires forall i :: 0 <= i < |weights| ==> 0 <= weights[i]
    ensures var s := Run(values, weights, 0, initialTemperature, coolingRate, draws);
      && s.bestWeight == 0
      && forall i :: 0 <= i < |names| && s.best[i] ==> weights[i] == 0
  {
    var s := Run(values, weights, 0, initialTemperature, coolingRate, draws);
    RunConsistent(values, weights, 0, initialTemperature, coolingRate, draws);
    TotalNonNegative(weights, s.best);
    forall i | 0 <= i < |names| && s.best[i] ensures weights[i] == 0 {
      TotalCoversSelected(weights, s.best, i);
    }
  }

  /** With capacity 0 and positive weights nothing is selected and the best value is 0. */
  lemma ZeroCapacityPositiveWeights(names: seq<string>, values: seq<int>, weights: seq<int>,
                                    initialTemperature: real, coolingRate: real, draws: seq<Draw>)
    requires |values| == |names| && |weights| == |names| && ValidDraws(|names|, draws)
    requires forall i :: 0 <= i < |weights| ==> 0 < weights[i]
    ensures var s := Run(values, weights, 0, initialTemperature, coolingRate, draws);
      && Anneal(names, values, weights, 0, initialTemperature, coolingRate, draws).0 == []
      && s.bestValue == 0
  {
    var s := Run(values, weights, 0, initialTemperature, coolingRate, draws);
    ZeroCapacity(names, values, weights, initialTemperature, coolingRate, draws);
    RunConsistent(values, weights, 0, initialTemperature, coolingRate, draws);
    PickEmptyIff(names, s.best);
    TotalNoneSelected(values, s.best);
  }

  /** A weight-0 item is selected even at capacity 0: the single item ("A", 5, 0)
      is taken by the first move, which is feasible and better. */
  lemma ZeroWeightItemSelected()
    ensures Anneal(["A"], [5], [0], 0, 1000.0, 0.95, [Draw(0, false)]).0 == ["A"]
  {
    var draws := [Draw(0, false)];
    assert draws[..0] == [];
    var s0 := Run([5], [0], 0, 1000.0, 0.95, draws[..0]);
    assert s0.current == [false] && s0.best == [false];
    assert Flip([false], 0) == [true];
    assert Total([5], [true]) == 5 && Total([0], [true]) == 0 && Total([5], [false]) == 0;
    var s := Run([5], [0], 0, 1000.0, 0.95, draws);
    assert s.best == [true];
    assert Pick(["A"], [true]) == ["A"];
  }

  /** Generated items all weigh at least 1, so a run on them at capacity 0 selects nothing. */
  lemma GeneratedItemsAtZeroCapacity(numItems: int, maxValue: int, maxWeight: int,
                                     valueDraws: seq<nat>, weightDraws: seq<nat>,
                                     initialTemperature: real, coolingRate: real, draws: seq<Draw>)
    requires |valueDraws| == Generator.ItemCount(numItems) && |weightDraws| == Generator.ItemCount(numItems)
    requires 1 <= maxValue && 1 <= maxWeight
    requires ValidDraws(Generator.ItemCount(numItems), draws)
    ensures var d := Generator.GenerateKnapsackData(numItems, maxValue, maxWeight, valueDraws, weightDraws).data;
      Anneal(d.names, d.values, d.weights, 0, initialTemperature, coolingRate, draws).0 == []
  {
    var d := Generator.GenerateKnapsackData(numItems, maxValue, maxWeight, valueDraws, weightDraws).data;
    ZeroCapacityPositiveWeights(d.names, d.values, d.weights, initialTemperature, coolingRate, draws);
  }
}
