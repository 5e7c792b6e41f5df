/** The total cost of an optimised trip: how it relates to the engine's own
    figures and when the 32-bit sum of the distances is safe. */
module Cost {
  import opened Wrappers
  import opened Trip
  import opened Engine

  const INT_MAX := 0x7FFF_FFFF
  const INT_MIN := -0x8000_0000

  predicate FitsInt(x: int) {
    INT_MIN <= x <= INT_MAX
  }

  function Plus(a: TravelCost, b: TravelCost): TravelCost {
    TravelCost(a.distance + b.distance, a.duration + b.duration)
  }

  /** std::accumulate over the legs, from a running total. */
  function Accumulate(total: TravelCost, costs: seq<TravelCost>): TravelCost
    decreases |costs|
  {
    if costs == [] then total else Accumulate(Plus(total, costs[0]), costs[1..])
  }

  function TotalCost(legs: seq<RouteLeg>): TravelCost {
    Accumulate(TravelCost(0, 0), Costs(legs))
  }

  /** The same accumulation in 32-bit distances; None where an addition overflows. */
  function AccumulateInt32(total: TravelCost, costs: seq<TravelCost>): Option<TravelCost>
    decreases |costs|
  {
    if costs == [] then Some(total)
    else if !FitsInt(total.distance + costs[0].distance) then None
    else AccumulateInt32(Plus(total, costs[0]), costs[1..])
  }

  ghost function Sum(xs: seq<int>): int {
    if xs == [] then 0 else Sum(xs[..|xs| - 1]) + xs[|xs| - 1]
  }

  ghost function RealSum(xs: seq<real>): real {
    if xs == [] then 0.0 else RealSum(xs[..|xs| - 1]) + xs[|xs| - 1]
  }

  ghost function Distances(costs: seq<TravelCost>): seq<int> {
    seq(|costs|, i requires 0 <= i < |costs| => costs[i].distance)
  }

  ghost function Durations(costs: seq<TravelCost>): seq<int> {
    seq(|costs|, i requires 0 <= i < |costs| => costs[i].duration)
  }

  lemma {:induction false} SumFirst(x: int, xs: seq<int>)
    ensures Sum([x] + xs) == x + Sum(xs)
  {
    if xs == [] {
      assert [x] + xs == [x];
      assert Sum([x]) == Sum([x][..0]) + x;
    } else {
      SumFirst(x, xs[..|xs| - 1]);
      assert ([x] + xs)[..|xs|] == [x] + xs[..|xs| - 1];
    }
  }

  lemma {:induction false} AccumulateIsSum(total: TravelCost, costs: seq<TravelCost>)
    ensures Accumulate(total, costs).distance == total.distance + Sum(Distances(costs))
    ensures Accumulate(total, costs).duration == total.duration + Sum(Durations(costs))
    decreases |costs|
  {
    if costs != [] {
      SumFirst(costs[0].distance, Distances(costs[1..]));
      SumFirst(costs[0].duration, Durations(costs[1..]));
      assert Distances(costs) == [costs[0].distance] + Distances(costs[1..]);
      assert Durations(costs) == [costs[0].duration] + Durations(costs[1..]);
      AccumulateIsSum(Plus(total, costs[0]), costs[1..]);
    }
  }

  /** The total is exactly the sum over the legs. */
  lemma TotalIsSum(legs: seq<RouteLeg>)
    ensures TotalCost(legs) == TravelCost(Sum(Distances(Costs(legs))), Sum(Durations(Costs(legs))))
  {
    AccumulateIsSum(TravelCost(0, 0), Costs(legs));
  }

  // ---------- against the engine's figures ----------

  lemma {:induction false} TruncatedSumError(xs: seq<real>, ns: seq<int>)
    requires |xs| == |ns| && forall i :: 0 <= i < |xs| ==> ns[i] == Truncate(xs[i])
    ensures xs != [] ==> -(|xs| as real) < RealSum(xs) - Sum(ns) as real < |xs| as real
    ensures xs == [] ==> RealSum(xs) == Sum(ns) as real
    ensures (forall i :: 0 <= i < |xs| ==> xs[i] >= 0.0) ==> Sum(ns) as real <= RealSum(xs)
  {
    if xs != [] {
      TruncatedSumError(xs[..|xs| - 1], ns[..|ns| - 1]);
    }
  }

  /** Truncating every leg costs less than one unit per leg of the engine's total. */
  lemma TotalCloseToEngine(engineLegs: seq<EngineLeg>, legs: seq<RouteLeg>)
    requires Costs(legs) == TruncatedCosts(engineLegs) && legs != []
    ensures var distances := seq(|engineLegs|, i requires 0 <= i < |engineLegs| => engineLegs[i].distance);
            var error := RealSum(distances) - TotalCost(legs).distance as real;
            -(|legs| as real) < error < |legs| as real
            && ((forall leg :: leg in engineLegs ==> leg.distance >= 0.0) ==> 0.0 <= error)
    ensures var durations := seq(|engineLegs|, i requires 0 <= i < |engineLegs| => engineLegs[i].duration);
            var error := RealSum(durations) - TotalCost(legs).duration as real;
            -(|legs| as real) < error < |legs| as real
            && ((forall leg :: leg in engineLegs ==> leg.duration >= 0.0) ==> 0.0 <= error)
  {
    assert |Costs(legs)| == |TruncatedCosts(engineLegs)|;
    TotalIsSum(legs);
    TruncatedSumError(seq(|engineLegs|, i requires 0 <= i < |engineLegs| => engineLegs[i].distance), Distances(Costs(legs)));
    TruncatedSumError(seq(|engineLegs|, i requires 0 <= i < |engineLegs| => engineLegs[i].duration), Durations(Costs(legs)));
  }

  // ---------- 32 bits ----------

  ghost predicate PrefixesFit(total: TravelCost, costs: seq<TravelCost>) {
    forall k :: 0 < k <= |costs| ==> FitsInt(Accumulate(total, costs[..k]).distance)
  }

  lemma PrefixStep(total: TravelCost, costs: seq<TravelCost>, k: nat)
    requires 0 < k <= |costs|
    ensures Accumulate(total, costs[..k]) == Accumulate(Plus(total, costs[0]), costs[1..][..k - 1])
  {
    assert costs[..k][1..] == costs[1..][..k - 1];
  }

  /** The 32-bit accumulation is exact when no running total leaves the range,
      and fails otherwise. */
  lemma {:induction false} Int32ExactIffPrefixesFit(total: TravelCost, costs: seq<TravelCost>)
    ensures AccumulateInt32(total, costs) == if PrefixesFit(total, costs) then Some(Accumulate(total, costs)) else None
    decreases |costs|
  {
    if costs != [] {
      var next, rest := Plus(total, costs[0]), costs[1..];
      Int32ExactIffPrefixesFit(next, rest);
      PrefixStep(total, costs, 1);
      if PrefixesFit(total, costs) {
        forall k | 0 < k <= |rest| ensures FitsInt(Accumulate(next, rest[..k]).distance) {
          PrefixStep(total, costs, k + 1);
        }
      } else {
        var k :| 0 < k <= |costs| && !FitsInt(Accumulate(total, costs[..k]).distance);
        PrefixStep(total, costs, k);
      }
    }
  }

  lemma {:induction false} SumBound(xs: seq<int>, most: int)
    requires 0 <= most && forall i :: 0 <= i < |xs| ==> -most <= xs[i] <= most
    ensures -(|xs| * most) <= Sum(xs) <= |xs| * most
  {
    if xs != [] {
      SumBound(xs[..|xs| - 1], most);
      assert |xs| * most == (|xs| - 1) * most + most;
    }
  }

  /** No overflow as long as leg count times longest leg fits. */
  lemma TotalFitsInt(legs: seq<RouteLeg>, longest: int)
    requires 0 <= longest && forall leg :: leg in legs ==> -longest <= leg.cost.distance <= longest
    requires |legs| * longest <= INT_MAX
    ensures AccumulateInt32(TravelCost(0, 0), Costs(legs)) == Some(TotalCost(legs))
  {
    var costs := Costs(legs);
    forall k | 0 < k <= |costs| ensures FitsInt(Accumulate(TravelCost(0, 0), costs[..k]).distance) {
      PrefixBound(legs, longest, k);
    }
    Int32ExactIffPrefixesFit(TravelCost(0, 0), costs);
  }

  lemma MultiplyMonotone(a: nat, b: nat, x: int)
    requires a <= b && 0 <= x
    ensures a * x <= b * x
  {
  }

  lemma PrefixBound(legs: seq<RouteLeg>, longest: int, k: nat)
    requires 0 <= longest && forall leg :: leg in legs ==> -longest <= leg.cost.distance <= longest
    requires |legs| * longest <= INT_MAX && k <= |legs|
    ensures FitsInt(Accumulate(TravelCost(0, 0), Costs(legs)[..k]).distance)
  {
    var ds := Distances(Costs(legs)[..k]);
    assert forall i :: 0 <= i < |ds| ==> ds[i] == legs[i].cost.distance && legs[i] in legs;
    SumBound(ds, longest);
    AccumulateIsSum(TravelCost(0, 0), Costs(legs)[..k]);
    MultiplyMonotone(k, |legs|, longest);
  }
}
