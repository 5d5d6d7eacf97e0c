/**
 * Day 1 (src/p01.rs): the fuel a module of a given mass needs, and the fuel
 * that fuel needs in turn, summed over all modules.  Masses are `u64`;
 * Rust's `/` on unsigned values is the floor that Dafny's `/` is on `nat`.
 */
module P01 {

  /** `calc_fuel`: a third of the mass, less 2, but never below 0 (`saturating_sub`). */
  function CalcFuel(mass: nat): (fuel: nat)
    ensures mass >= 9 ==> 3 * (fuel + 2) <= mass < 3 * (fuel + 3)
    ensures fuel == 0 <==> mass < 9
    ensures mass > 0 ==> fuel < mass
  {
    if mass / 3 >= 2 then mass / 3 - 2 else 0
  }

  /**
   * The fuel for `mass` together with the fuel for that fuel, and so on
   * until a step needs none: the sum `calc_fuel_all` accumulates.
   */
  function FuelTotal(mass: nat): nat
    decreases mass
  {
    if mass == 0 then 0 else CalcFuel(mass) + FuelTotal(CalcFuel(mass))
  }

  /** `calc_fuel_all`: the loop that adds up the fuel for the fuel. */
  method CalcFuelAll(mass0: nat) returns (tot: nat)
    ensures tot == FuelTotal(mass0)
  {
    tot := 0;
    var mass := mass0;
    while mass > 0
      invariant tot + FuelTotal(mass) == FuelTotal(mass0)
      decreases mass
    {
      mass := CalcFuel(mass);
      tot := tot + mass;
    }
  }

  /** The total is at least the first term, and is exactly it when that first fuel needs none. */
  lemma FuelTotalAtLeastFuel(mass: nat)
    ensures FuelTotal(mass) >= CalcFuel(mass)
    ensures CalcFuel(mass) < 9 ==> FuelTotal(mass) == CalcFuel(mass)
  {
  }

  /** The fuel for the fuel never exceeds half the mass: each term is at most a third of the last. */
  lemma {:induction false} FuelTotalBound(mass: nat)
    ensures 2 * FuelTotal(mass) <= mass
    decreases mass
  {
    if mass > 0 {
      FuelTotalBound(CalcFuel(mass));
    }
  }

  /** The values of the first test. */
  lemma CalcFuelExamples()
    ensures CalcFuel(12) == 2 && CalcFuel(14) == 2
    ensures CalcFuel(1969) == 654 && CalcFuel(100756) == 33583
  {
  }

  /** The values of the second test. */
  lemma FuelTotalExamples()
    ensures FuelTotal(14) == 2
    ensures FuelTotal(1969) == 966
    ensures FuelTotal(100756) == 50346
  {
    assert FuelTotal(2) == 0;
    assert FuelTotal(5) == 0 && FuelTotal(21) == 5 && FuelTotal(70) == 26;
    assert FuelTotal(216) == 96 && FuelTotal(654) == 312;
    assert FuelTotal(12) == 2 && FuelTotal(43) == 14 && FuelTotal(135) == 57 && FuelTotal(411) == 192;
    assert FuelTotal(1240) == 603 && FuelTotal(3728) == 1843 && FuelTotal(11192) == 5571;
    assert FuelTotal(33583) == 16763;
  }

  function SumOf(f: nat -> nat, xs: seq<nat>): nat
  {
    if |xs| == 0 then 0 else SumOf(f, xs[..|xs| - 1]) + f(xs[|xs| - 1])
  }

  /** `part1`: the fuel for every module, summed. */
  function Part1(masses: seq<nat>): nat
  {
    SumOf(CalcFuel, masses)
  }

  /** `part2`: the fuel for every module and its fuel, summed. */
  function Part2(masses: seq<nat>): nat
  {
    SumOf(FuelTotal, masses)
  }

  /** Counting the fuel's fuel never lowers the total, and adds at most half the mass again. */
  lemma {:induction false} Part2Bounds(masses: seq<nat>)
    ensures Part1(masses) <= Part2(masses)
    ensures 2 * Part2(masses) <= SumOf(m => m, masses)
    decreases |masses|
  {
    if |masses| > 0 {
      Part2Bounds(masses[..|masses| - 1]);
      FuelTotalAtLeastFuel(masses[|masses| - 1]);
      FuelTotalBound(masses[|masses| - 1]);
    }
  }

  /** Adding one module adds its fuel: the sums are over the modules in order. */
  lemma Part1Snoc(masses: seq<nat>, m: nat)
    ensures Part1(masses + [m]) == Part1(masses) + CalcFuel(m)
    ensures Part2(masses + [m]) == Part2(masses) + FuelTotal(m)
  {
    assert (masses + [m])[..|masses|] == masses;
  }
}
