/**
  The two aptitude (fitness) functions.

  - `Genetico.calcula_aptitud`: the inverse cost `1 / (1 + cost)`.
  - `GeneticoPermutaciones2.calcula_aptitud2` sums the cost of the whole
    population once per generation, and
    `GeneticoPermutaciones2.calcula_aptitud` divides an individual's cost
    by that total.

  The Python code computes with floating point; here aptitudes are exact reals.
  The problem's cost function is a parameter returning a natural number.
 */
module Aptitude {
  import opened Individuals

  /** `Genetico.calcula_aptitud`. */
  function InverseCost(c: nat): (a: real)
    ensures 0.0 < a <= 1.0
    ensures a * (1.0 + c as real) == 1.0
  {
    1.0 / (1.0 + c as real)
  }

  /** The inverse cost orders individuals exactly opposite to their cost. */
  lemma InverseCostDecreasing(c1: nat, c2: nat)
    ensures c1 < c2 <==> InverseCost(c1) > InverseCost(c2)
  {
    var a1, a2 := InverseCost(c1), InverseCost(c2);
    var d1, d2 := 1.0 + c1 as real, 1.0 + c2 as real;
    assert a1 * d1 == 1.0 && a2 * d2 == 1.0;
    assert (a1 - a2) * d1 == (d2 - d1) * a2 by {
      calc {
        (a1 - a2) * d1;
        a1 * d1 - a2 * d1;
        a2 * d2 - a2 * d1;
        (d2 - d1) * a2;
      }
    }
    SignTransfer(a1 - a2, d1, d2 - d1, a2);
  }

  /** Equal products with positive second factors have first factors of
      the same sign. */
  lemma SignTransfer(x: real, p: real, y: real, q: real)
    requires p > 0.0 && q > 0.0 && x * p == y * q
    ensures x > 0.0 <==> y > 0.0
  {
    SignOfProduct(x, p);
    SignOfProduct(y, q);
  }

  /** Multiplying by a positive number keeps the sign. */
  lemma SignOfProduct(x: real, p: real)
    requires p > 0.0
    ensures x * p > 0.0 <==> x > 0.0
  {
    if x > 0.0 {
      assert x * p > 0.0;
    } else {
      assert -x >= 0.0;
      assert (-x) * p >= 0.0;
    }
  }

  /** The aptitude list `[calcula_aptitud(i, costo) for i in poblacion]`. */
  function InverseAptitudes(poblacion: Population, cost: Individual -> nat): (apt: seq<real>)
    ensures |apt| == |poblacion|
    ensures forall i :: 0 <= i < |apt| ==> 0.0 < apt[i] <= 1.0
    ensures forall i, j :: 0 <= i < |apt| && 0 <= j < |apt| ==>
      (cost(poblacion[i]) < cost(poblacion[j]) <==> apt[i] > apt[j])
  {
    var apt := seq(|poblacion|, i requires 0 <= i < |poblacion| => InverseCost(cost(poblacion[i])));
    forall i, j | 0 <= i < |apt| && 0 <= j < |apt|
      ensures cost(poblacion[i]) < cost(poblacion[j]) <==> apt[i] > apt[j]
    {
      InverseCostDecreasing(cost(poblacion[i]), cost(poblacion[j]));
    }
    apt
  }

  /** The cost of the first `j` individuals. */
  function SumCosts(poblacion: Population, cost: Individual -> nat, j: nat): (total: nat)
    requires j <= |poblacion|
    ensures j > 0 ==> cost(poblacion[j - 1]) <= total
  {
    if j == 0 then 0 else SumCosts(poblacion, cost, j - 1) + cost(poblacion[j - 1])
  }

  /** A total cost is zero exactly when every summed cost is. */
  lemma {:induction false} SumCostsZero(poblacion: Population, cost: Individual -> nat, j: nat)
    requires j <= |poblacion|
    ensures SumCosts(poblacion, cost, j) == 0 <==> forall i :: 0 <= i < j ==> cost(poblacion[i]) == 0
  {
    if j > 0 {
      SumCostsZero(poblacion, cost, j - 1);
    }
  }

  /** `GeneticoPermutaciones2.calcula_aptitud2`. */
  method TotalCost(poblacion: Population, cost: Individual -> nat) returns (costoTotal: nat)
    ensures costoTotal == SumCosts(poblacion, cost, |poblacion|)
    ensures costoTotal == 0 <==> forall i :: 0 <= i < |poblacion| ==> cost(poblacion[i]) == 0
  {
    costoTotal := 0;
    var ind := 0;
    while ind < |poblacion|
      invariant 0 <= ind <= |poblacion|
      invariant costoTotal == SumCosts(poblacion, cost, ind)
    {
      var individuo := poblacion[ind];
      costoTotal := costoTotal + cost(individuo);
      ind := ind + 1;
    }
    SumCostsZero(poblacion, cost, |poblacion|);
  }

  /** `GeneticoPermutaciones2.calcula_aptitud`: the individual's share of
      the population's total cost. */
  function CostShare(c: nat, costoTotal: nat): (a: real)
    requires costoTotal > 0
    ensures a * costoTotal as real == c as real
    ensures 0.0 <= a
  {
    c as real / costoTotal as real
  }

  /** The aptitude list `[calcula_aptitud(i, costo, Costo_Total) for i in
      poblacion]`; the division is only reached when the list is not empty. */
  function CostShares(poblacion: Population, cost: Individual -> nat, costoTotal: nat): (apt: seq<real>)
    requires |poblacion| == 0 || costoTotal > 0
    ensures |apt| == |poblacion|
    ensures forall i :: 0 <= i < |apt| ==> 0.0 <= apt[i] && apt[i] * costoTotal as real == cost(poblacion[i]) as real
    ensures ScaledCosts(poblacion, cost, apt, costoTotal as real, |poblacion|)
  {
    var apt := seq(|poblacion|, i requires 0 <= i < |poblacion| => CostShare(cost(poblacion[i]), costoTotal));
    PointwiseScaled(poblacion, cost, apt, costoTotal as real, |poblacion|);
    apt
  }

  /** `apt[i] * t` is the cost of individual `i`, for each `i < j`. */
  predicate ScaledCosts(poblacion: Population, cost: Individual -> nat, apt: seq<real>, t: real, j: nat)
    requires j <= |apt| == |poblacion|
  {
    j == 0 || (ScaledCosts(poblacion, cost, apt, t, j - 1) && apt[j - 1] * t == cost(poblacion[j - 1]) as real)
  }

  lemma {:induction false} PointwiseScaled(poblacion: Population, cost: Individual -> nat, apt: seq<real>, t: real, j: nat)
    requires j <= |apt| == |poblacion|
    requires forall i :: 0 <= i < |apt| ==> apt[i] * t == cost(poblacion[i]) as real
    ensures ScaledCosts(poblacion, cost, apt, t, j)
  {
    if j > 0 {
      PointwiseScaled(poblacion, cost, apt, t, j - 1);
    }
  }

  /** `apt[0] + ... + apt[j-1]`, summed left to right as the roulette's
      running sum does. */
  function PrefixSum(apt: seq<real>, j: nat): (s: real)
    requires j <= |apt|
  {
    if j == 0 then 0.0 else PrefixSum(apt, j - 1) + apt[j - 1]
  }

  /** The running sum of non-negative aptitudes never decreases. */
  lemma {:induction false} PrefixSumMonotone(apt: seq<real>, i: nat, j: nat)
    requires i <= j <= |apt|
    requires forall k :: 0 <= k < |apt| ==> apt[k] >= 0.0
    ensures PrefixSum(apt, i) <= PrefixSum(apt, j)
    decreases j - i
  {
    if i < j {
      PrefixSumMonotone(apt, i, j - 1);
    }
  }

  /** Aptitudes that, scaled by `t`, give the individuals' costs have a
      running sum that, scaled by `t`, gives the running cost. */
  lemma {:induction false} ScaledPrefix(poblacion: Population, cost: Individual -> nat, apt: seq<real>, t: real, j: nat)
    requires j <= |apt| == |poblacion|
    requires ScaledCosts(poblacion, cost, apt, t, j)
    ensures PrefixSum(apt, j) * t == SumCosts(poblacion, cost, j) as real
  {
    if j > 0 {
      ScaledPrefix(poblacion, cost, apt, t, j - 1);
      PrefixStep(PrefixSum(apt, j - 1), apt[j - 1], t,
                 SumCosts(poblacion, cost, j - 1) as real, cost(poblacion[j - 1]) as real);
    }
  }

  /** Over a population with a positive total cost, the cost shares (any
      aptitudes that, times the total, give the costs, as `CostShares`
      ensures) add up to one. */
  lemma SharesSumToOne(poblacion: Population, cost: Individual -> nat, apt: seq<real>, costoTotal: nat)
    requires costoTotal == SumCosts(poblacion, cost, |poblacion|) > 0
    requires |apt| == |poblacion|
    requires ScaledCosts(poblacion, cost, apt, costoTotal as real, |poblacion|)
    ensures PrefixSum(apt, |poblacion|) == 1.0
  {
    ScaledPrefix(poblacion, cost, apt, costoTotal as real, |poblacion|);
    UnitFactor(PrefixSum(apt, |poblacion|), costoTotal as real, SumCosts(poblacion, cost, |poblacion|) as real);
  }

  /** One step of a scaled running sum. */
  lemma PrefixStep(p: real, x: real, t: real, sp: real, cx: real)
    requires p * t == sp && x * t == cx
    ensures (p + x) * t == sp + cx
  {
  }

  /** A factor that leaves a positive number unchanged is one. */
  lemma UnitFactor(s: real, t: real, u: real)
    requires t > 0.0 && s * t == u && u == t
    ensures s == 1.0
  {
    assert (s - 1.0) * t == 0.0 by {
      assert (s - 1.0) * t == s * t - 1.0 * t;
    }
    assert (1.0 - s) * t == 0.0 by {
      assert (1.0 - s) * t == 1.0 * t - s * t;
    }
    SignOfProduct(s - 1.0, t);
    SignOfProduct(1.0 - s, t);
  }
}
