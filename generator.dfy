/** The synthetic item generator: num_items items named Product_1, Product_2, ...
    with values and weights drawn from closed integer ranges starting at 1.

    Python's randint(low, high) is modelled as RandInt(low, high, d) for an
    arbitrary natural draw d; every value of the range is reached by some draw,
    so the model covers every possible outcome. */
module Generator {

  datatype ItemData = ItemData(names: seq<string>, values: seq<int>, weights: seq<int>)

  /** randint raises ValueError on an empty range; the value list is built first. */
  datatype GenError = EmptyValueRange | EmptyWeightRange

  datatype Result = Ok(data: ItemData) | Err(error: GenError)

  // ---------------------------------------------------------------------------
  // Decimal rendering of item numbers

  function DigitChar(d: nat): char
    requires d < 10
  {
    ('0' as int + d) as char
  }

  function DigitValue(c: char): int
  {
    c as int - '0' as int
  }

  /** The decimal digits of n, most significant first, as Python's str renders a natural. */
  function DecimalString(n: nat): (s: string)
    ensures 0 < |s|
    ensures forall k :: 0 <= k < |s| ==> '0' <= s[k] <= '9'
    decreases n
  {
    if n < 10 then [DigitChar(n)] else DecimalString(n / 10) + [DigitChar(n % 10)]
  }

  /** Reads a string of decimal digits back as a number. */
  function ParseDecimal(s: string): int
    decreases |s|
  {
    if |s| == 0 then 0 else 10 * ParseDecimal(s[..|s| - 1]) + DigitValue(s[|s| - 1])
  }

  /** Reading back the decimal rendering gives the number. */
  lemma {:induction false} ParseDecimalString(n: nat)
    ensures ParseDecimal(DecimalString(n)) == n
    decreases n
  {
    var s := DecimalString(n);
    if n < 10 {
      assert s[..|s| - 1] == [];
    } else {
      ParseDecimalString(n / 10);
      assert s[..|s| - 1] == DecimalString(n / 10);
    }
  }

  /** The name of the item at zero-based position i. */
  function ProductName(i: nat): string
  {
    "Product_" + DecimalString(i + 1)
  }

  /** Different positions get different names. */
  lemma ProductNameInjective(i: nat, j: nat)
    requires ProductName(i) == ProductName(j)
    ensures i == j
  {
    assert ProductName(i)[8..] == DecimalString(i + 1);
    assert ProductName(j)[8..] == DecimalString(j + 1);
    ParseDecimalString(i + 1);
    ParseDecimalString(j + 1);
  }

  // ---------------------------------------------------------------------------
  // Random draws

  /** randint(low, high) for the draw d: a value of the closed range [low, high]. */
  function RandInt(low: int, high: int, d: nat): int
    requires low <= high
  {
    low + d % (high - low + 1)
  }

  /** Every draw lands in the closed range ... */
  lemma RandIntRange(low: int, high: int, d: nat)
    requires low <= high
    ensures low <= RandInt(low, high, d) <= high
  {
  }

  /** ... and every value of the range is the outcome of some draw. */
  lemma RandIntReaches(low: int, high: int, v: int)
    requires low <= v <= high
    ensures RandInt(low, high, v - low) == v
  {
    var m := high - low + 1;
    assert (v - low) % m == v - low;
  }

  /** range(num_items) is empty for a negative count. */
  function ItemCount(numItems: int): nat
  {
    if numItems < 0 then 0 else numItems
  }

  /** The generator; one value draw and one weight draw per item. */
  function GenerateKnapsackData(numItems: int, maxValue: int, maxWeight: int,
                                valueDraws: seq<nat>, weightDraws: seq<nat>): (r: Result)
    requires |valueDraws| == ItemCount(numItems) && |weightDraws| == ItemCount(numItems)
    ensures r.Ok? <==> ItemCount(numItems) == 0 || (1 <= maxValue && 1 <= maxWeight)
    ensures r.Err? ==> r.error == (if maxValue < 1 then EmptyValueRange else EmptyWeightRange)
    ensures r.Ok? ==>
      && |r.data.names| == ItemCount(numItems)
      && |r.data.values| == ItemCount(numItems)
      && |r.data.weights| == ItemCount(numItems)
      && forall i :: 0 <= i < ItemCount(numItems) ==>
           && r.data.names[i] == ProductName(i)
           && 1 <= r.data.values[i] <= maxValue
           && 1 <= r.data.weights[i] <= maxWeight
  {
    var count := ItemCount(numItems);
    var names := seq(count, i requires 0 <= i => ProductName(i));
    if 0 < count && maxValue < 1 then Err(EmptyValueRange)
    else if 0 < count && maxWeight < 1 then Err(EmptyWeightRange)
    else
      var values := seq(count, i requires 0 <= i < count => RandInt(1, maxValue, valueDraws[i]));
      var weights := seq(count, i requires 0 <= i < count => RandInt(1, maxWeight, weightDraws[i]));
      Ok(ItemData(names, values, weights))
  }

  /** Generated names are pairwise distinct, so a caller can use them as keys. */
  lemma GeneratedNamesDistinct(numItems: int, maxValue: int, maxWeight: int,
                               valueDraws: seq<nat>, weightDraws: seq<nat>)
    requires |valueDraws| == ItemCount(numItems) && |weightDraws| == ItemCount(numItems)
    ensures var r := GenerateKnapsackData(numItems, maxValue, maxWeight, valueDraws, weightDraws);
      r.Ok? ==> forall i, j :: 0 <= i < j < |r.data.names| ==> r.data.names[i] != r.data.names[j]
  {
    var r := GenerateKnapsackData(numItems, maxValue, maxWeight, valueDraws, weightDraws);
    if r.Ok? {
      forall i, j | 0 <= i < j < |r.data.names|
        ensures r.data.names[i] != r.data.names[j]
      {
        if r.data.names[i] == r.data.names[j] {
          ProductNameInjective(i, j);
        }
      }
    }
  }

  /** Every item set the generator can return is returned for some draws:
      the one whose values and weights are the given in-range numbers. */
  lemma EveryItemSetReachable(numItems: nat, maxValue: int, maxWeight: int, values: seq<int>, weights: seq<int>)
    requires 0 < numItems && |values| == numItems && |weights| == numItems
    requires forall i :: 0 <= i < numItems ==> 1 <= values[i] <= maxValue
    requires forall i :: 0 <= i < numItems ==> 1 <= weights[i] <= maxWeight
    ensures 1 <= maxValue && 1 <= maxWeight
    ensures var r := GenerateKnapsackData(numItems, maxValue, maxWeight,
                                          DrawsFor(values, maxValue), DrawsFor(weights, maxWeight));
      && r.Ok?
      && r.data.values == values && r.data.weights == weights
      && forall i :: 0 <= i < numItems ==> r.data.names[i] == ProductName(i)
  {
    assert 1 <= maxValue && 1 <= maxWeight by {
      assert 1 <= values[0] <= maxValue && 1 <= weights[0] <= maxWeight;
    }
    var r := GenerateKnapsackData(numItems, maxValue, maxWeight,
                                  DrawsFor(values, maxValue), DrawsFor(weights, maxWeight));
    assert r.Ok?;
  }

  /** The draws that make randint(1, m) return the given numbers of [1, m]. */
  function DrawsFor(xs: seq<int>, m: int): (ds: seq<nat>)
    requires 1 <= m && forall i :: 0 <= i < |xs| ==> 1 <= xs[i] <= m
    ensures |ds| == |xs|
    ensures forall i :: 0 <= i < |xs| ==> RandInt(1, m, ds[i]) == xs[i]
  {
    var ds := seq(|xs|, i requires 0 <= i < |xs| => (xs[i] - 1) as nat);
    assert forall i :: 0 <= i < |xs| ==> RandInt(1, m, ds[i]) == xs[i] by {
      forall i | 0 <= i < |xs| ensures RandInt(1, m, ds[i]) == xs[i] {
        RandIntReaches(1, m, xs[i]);
      }
    }
    ds
  }
}
