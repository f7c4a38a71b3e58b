/**
 * day1.py: the fuel a module of a given mass needs, and the fuel that fuel
 * needs in turn.
 */
module Day1 {
  import Numbers

  /** `mass // 3 - 2`, with Python's floor division. */
  function FuelRequired(mass: int): (fuel: int)
    ensures 3 * (fuel + 2) <= mass < 3 * (fuel + 3)
  {
    mass / 3 - 2
  }

  /** More mass never needs less fuel. */
  lemma {:induction false} FuelRequiredMonotone(m: int, n: int)
    requires m <= n
    ensures FuelRequired(m) <= FuelRequired(n)
  {
  }

  /** Fuel for positive fuel is strictly less than that fuel: the recursion below stops. */
  lemma {:induction false} FuelRequiredDecreases(f: int)
    requires f > 0
    ensures FuelRequired(f) < f
  {
  }

  /** `total_fuel_required(fuel)`: the fuel itself plus the fuel for it, until that is not positive. */
  function TotalFuelRequired(fuel: int): (total: int)
    ensures fuel <= 0 ==> total == 0
    ensures fuel > 0 ==> total >= fuel
    decreases if fuel > 0 then fuel else 0
  {
    if fuel <= 0 then 0
    else
      FuelRequiredDecreases(fuel);
      fuel + TotalFuelRequired(FuelRequired(fuel))
  }

  /** More fuel never needs less total fuel. */
  lemma {:induction false} TotalFuelMonotone(f: int, g: int)
    requires f <= g
    ensures TotalFuelRequired(f) <= TotalFuelRequired(g)
    decreases if g > 0 then g else 0
  {
    if f > 0 {
      FuelRequiredMonotone(f, g);
      FuelRequiredDecreases(g);
      TotalFuelMonotone(FuelRequired(f), FuelRequired(g));
    }
  }

  /** The chain of positive fuel amounts that `total_fuel_required` adds up. */
  function FuelChain(fuel: int): (chain: seq<int>)
    ensures forall i :: 0 <= i < |chain| ==> chain[i] > 0
    decreases if fuel > 0 then fuel else 0
  {
    if fuel <= 0 then []
    else
      FuelRequiredDecreases(fuel);
      [fuel] + FuelChain(FuelRequired(fuel))
  }

  /**
   * The total is the sum of the chain `f, fuel(f), fuel(fuel(f)), ...` of positive
   * amounts, and each amount of the chain is the fuel the one before needs.
   */
  lemma {:induction false} TotalFuelIsChainSum(f: int)
    ensures TotalFuelRequired(f) == Numbers.Sum(FuelChain(f))
    ensures var c := FuelChain(f); forall i :: 0 < i < |c| ==> c[i] == FuelRequired(c[i - 1])
    ensures f > 0 ==> |FuelChain(f)| > 0 && FuelChain(f)[0] == f
    decreases if f > 0 then f else 0
  {
    if f > 0 {
      FuelRequiredDecreases(f);
      var rest := FuelChain(FuelRequired(f));
      TotalFuelIsChainSum(FuelRequired(f));
      Numbers.SumAppend([f], rest);
      assert Numbers.Sum([f]) == f;
      var c := FuelChain(f);
      assert c == [f] + rest;
      forall i | 0 < i < |c|
        ensures c[i] == FuelRequired(c[i - 1])
      {
        if i > 1 {
          assert c[i] == rest[i - 1] && c[i - 1] == rest[i - 2];
        }
      }
    }
  }

  /** Part one: the fuel of every module, added up. */
  function ModuleFuel(masses: seq<int>): (total: int)
    ensures masses == [] ==> total == 0
  {
    if masses == [] then 0 else ModuleFuel(masses[..|masses| - 1]) + FuelRequired(masses[|masses| - 1])
  }

  /** Part two: for every module, the total fuel its own fuel needs, added up. */
  function ModuleTotalFuel(masses: seq<int>): (total: int)
    ensures total >= 0
  {
    if masses == [] then 0 else ModuleTotalFuel(masses[..|masses| - 1]) + TotalFuelRequired(FuelRequired(masses[|masses| - 1]))
  }

  /**
   * Part two never counts below part one over modules that need fuel, since the
   * total for positive fuel is at least that fuel.
   */
  lemma {:induction false} PartTwoCoversPartOne(masses: seq<int>)
    requires forall i :: 0 <= i < |masses| ==> FuelRequired(masses[i]) > 0
    ensures ModuleFuel(masses) <= ModuleTotalFuel(masses)
    decreases |masses|
  {
    if masses != [] {
      PartTwoCoversPartOne(masses[..|masses| - 1]);
    }
  }

  lemma Examples()
    ensures FuelRequired(12) == 2 && FuelRequired(14) == 2 && FuelRequired(1969) == 654
    ensures TotalFuelRequired(2) == 2 && TotalFuelRequired(FuelRequired(1969)) == 966
  {
    assert FuelRequired(654) == 216 && FuelRequired(216) == 70 && FuelRequired(70) == 21;
    assert FuelRequired(21) == 5 && FuelRequired(5) == -1;
    assert TotalFuelRequired(5) == 5;
    assert TotalFuelRequired(21) == 26;
    assert TotalFuelRequired(70) == 96;
    assert TotalFuelRequired(216) == 312;
  }
}
