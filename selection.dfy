/**
  The two selection operators, each returning the lists of fathers and
  mothers.

  - `GeneticoPermutaciones1.seleccion` (tournament): the index list is
    shuffled, consecutive pairs of it meet, and the index with strictly
    higher aptitude wins (on a tie, the second one); this is done once for
    the fathers and once, after another shuffle, for the mothers.
  - `GeneticoPermutaciones2.seleccion` (roulette): every draw `r` scans the
    running sum of the aptitudes and appends EVERY individual at which that
    sum is at least `r`.  The `continue` in the Python code does not leave the
    scan, so a draw can append more than one individual.

  The shuffled index lists and the roulette draws are parameters.
 */
module Selection {
  import opened Individuals
  import opened Aptitude

  /** What `random.shuffle` leaves in the index list `range(n)`. */
  predicate IsShuffle(baraja: seq<nat>, n: nat) {
    |baraja| == n && (forall i :: 0 <= i < n ==> baraja[i] < n) && Distinct(baraja)
  }

  /** `ind1 if aptitud[ind1] > aptitud[ind2] else ind2`. */
  function Winner(aptitud: seq<real>, ind1: nat, ind2: nat): (g: nat)
    requires ind1 < |aptitud| && ind2 < |aptitud|
    ensures g == ind1 || g == ind2
    ensures aptitud[g] >= aptitud[ind1] && aptitud[g] >= aptitud[ind2]
    ensures aptitud[ind1] == aptitud[ind2] ==> g == ind2
  {
    if aptitud[ind1] > aptitud[ind2] then ind1 else ind2
  }

  /** The winners of the pairs `(baraja[2k], baraja[2k+1])`, in order; an
      odd last index meets nobody. */
  function Winners(poblacion: Population, aptitud: seq<real>, baraja: seq<nat>): (ganadores: Population)
    requires |aptitud| == |poblacion| && IsShuffle(baraja, |poblacion|)
    ensures |ganadores| == |poblacion| / 2
    ensures forall k :: 0 <= k < |ganadores| ==> ganadores[k] in poblacion
  {
    seq(|poblacion| / 2, k requires 0 <= k < |poblacion| / 2 =>
      poblacion[Winner(aptitud, baraja[2 * k], baraja[2 * k + 1])])
  }

  /** One tournament round over the shuffled indices `baraja`: the pairs
      `(baraja[i], baraja[i+1])` for `i in range(0, n-1, 2)`. */
  method TournamentRound(poblacion: Population, aptitud: seq<real>, baraja: seq<nat>)
    returns (ganadores: Population)
    requires |aptitud| == |poblacion| && IsShuffle(baraja, |poblacion|)
    ensures ganadores == Winners(poblacion, aptitud, baraja)
    ensures |ganadores| == |poblacion| / 2
    ensures forall k :: 0 <= k < |ganadores| ==>
      ganadores[k] == poblacion[Winner(aptitud, baraja[2 * k], baraja[2 * k + 1])]
    ensures forall k :: 0 <= k < |ganadores| ==> ganadores[k] in poblacion
  {
    var n := |poblacion|;
    ganadores := [];
    var i := 0;
    while i < n - 1
      invariant 0 <= i <= n && i % 2 == 0 && |ganadores| == i / 2
      invariant forall k :: 0 <= k < |ganadores| ==>
        ganadores[k] == poblacion[Winner(aptitud, baraja[2 * k], baraja[2 * k + 1])]
    {
      var ganador := Winner(aptitud, baraja[i], baraja[i + 1]);
      ganadores := ganadores + [poblacion[ganador]];
      i := i + 2;
    }
  }

  /** `GeneticoPermutaciones1.seleccion`; `baraja1` and `baraja2` are the
      index orders after the first and the second shuffle. */
  method TournamentSelection(poblacion: Population, aptitud: seq<real>, baraja1: seq<nat>, baraja2: seq<nat>)
    returns (padres: Population, madres: Population)
    requires |aptitud| == |poblacion| && IsShuffle(baraja1, |poblacion|) && IsShuffle(baraja2, |poblacion|)
    ensures padres == Winners(poblacion, aptitud, baraja1) && madres == Winners(poblacion, aptitud, baraja2)
    ensures |padres| == |poblacion| / 2 && |madres| == |poblacion| / 2
    ensures forall k :: 0 <= k < |padres| ==>
      padres[k] == poblacion[Winner(aptitud, baraja1[2 * k], baraja1[2 * k + 1])]
    ensures forall k :: 0 <= k < |madres| ==>
      madres[k] == poblacion[Winner(aptitud, baraja2[2 * k], baraja2[2 * k + 1])]
    ensures forall k :: 0 <= k < |padres| ==> padres[k] in poblacion && madres[k] in poblacion
  {
    padres := TournamentRound(poblacion, aptitud, baraja1);
    madres := TournamentRound(poblacion, aptitud, baraja2);
  }

  /** With inverse-cost aptitudes the tournament is won by the strictly
      cheaper individual, and on equal cost by the second one. */
  lemma InverseCostTournament(poblacion: Population, cost: Individual -> nat, ind1: nat, ind2: nat)
    requires ind1 < |poblacion| && ind2 < |poblacion|
    ensures Winner(InverseAptitudes(poblacion, cost), ind1, ind2)
         == if cost(poblacion[ind1]) < cost(poblacion[ind2]) then ind1 else ind2
  {
    var apt := InverseAptitudes(poblacion, cost);
    InverseCostDecreasing(cost(poblacion[ind1]), cost(poblacion[ind2]));
    assert apt[ind1] == InverseCost(cost(poblacion[ind1]));
    assert apt[ind2] == InverseCost(cost(poblacion[ind2]));
  }

  // ---------------------------------------------------------------------
  // Roulette.
  // ---------------------------------------------------------------------

  /** The individuals that one roulette draw `r` appends while scanning
      the first `j` positions. */
  function Picked(poblacion: Population, aptitud: seq<real>, r: real, j: nat): (picked: Population)
    requires |aptitud| == |poblacion| && j <= |poblacion|
    ensures |picked| <= j
  {
    if j == 0 then []
    else Picked(poblacion, aptitud, r, j - 1) + (if PrefixSum(aptitud, j) >= r then [poblacion[j - 1]] else [])
  }

  /** A draw appends only members of the population. */
  lemma {:induction false} PickedMembers(poblacion: Population, aptitud: seq<real>, r: real, j: nat)
    requires |aptitud| == |poblacion| && j <= |poblacion|
    ensures forall k :: 0 <= k < |Picked(poblacion, aptitud, r, j)| ==> Picked(poblacion, aptitud, r, j)[k] in poblacion
  {
    if j > 0 {
      PickedMembers(poblacion, aptitud, r, j - 1);
    }
  }

  /** With non-negative aptitudes, the individuals a draw appends are a
      suffix `poblacion[m..j]`: those whose running sum reached `r`. */
  lemma {:induction false} PickedSuffix(poblacion: Population, aptitud: seq<real>, r: real, j: nat) returns (m: nat)
    requires |aptitud| == |poblacion| && j <= |poblacion|
    requires forall k :: 0 <= k < |aptitud| ==> aptitud[k] >= 0.0
    ensures m <= j && Picked(poblacion, aptitud, r, j) == poblacion[m..j]
    ensures forall i :: 0 < i <= m ==> PrefixSum(aptitud, i) < r
    ensures forall i :: m < i <= j ==> PrefixSum(aptitud, i) >= r
  {
    if j == 0 {
      m := 0;
    } else if PrefixSum(aptitud, j) >= r {
      m := PickedSuffix(poblacion, aptitud, r, j - 1);
      calc {
        Picked(poblacion, aptitud, r, j);
        Picked(poblacion, aptitud, r, j - 1) + [poblacion[j - 1]];
        poblacion[m..j - 1] + [poblacion[j - 1]];
        { assert poblacion[m..j - 1] + [poblacion[j - 1]] == poblacion[m..j]; }
        poblacion[m..j];
      }
    } else {
      m := j;
      forall i | 0 < i <= j ensures PrefixSum(aptitud, i) < r {
        PrefixSumMonotone(aptitud, i, j);
      }
      PickedNone(poblacion, aptitud, r, j);
    }
  }

  /** A draw above every running sum up to `j` appends nobody there. */
  lemma {:induction false} PickedNone(poblacion: Population, aptitud: seq<real>, r: real, j: nat)
    requires |aptitud| == |poblacion| && j <= |poblacion|
    requires forall i :: 0 < i <= j ==> PrefixSum(aptitud, i) < r
    ensures Picked(poblacion, aptitud, r, j) == []
  {
    if j > 0 {
      PickedNone(poblacion, aptitud, r, j - 1);
    }
  }

  /** One roulette draw over the whole population appends `poblacion[m..]`
      for the first `m` whose running sum reaches `r`, and at least one
      individual exactly when the total aptitude reaches `r`. */
  lemma RouletteDrawIsSuffix(poblacion: Population, aptitud: seq<real>, r: real) returns (m: nat)
    requires |aptitud| == |poblacion|
    requires forall k :: 0 <= k < |aptitud| ==> aptitud[k] >= 0.0
    ensures m <= |poblacion| && Picked(poblacion, aptitud, r, |poblacion|) == poblacion[m..]
    ensures forall i :: 0 < i <= m ==> PrefixSum(aptitud, i) < r
    ensures forall i :: m < i <= |poblacion| ==> PrefixSum(aptitud, i) >= r
    ensures m < |poblacion| <==> |poblacion| > 0 && PrefixSum(aptitud, |poblacion|) >= r
  {
    m := PickedSuffix(poblacion, aptitud, r, |poblacion|);
    assert poblacion[m..|poblacion|] == poblacion[m..];
  }

  /** The list built from the first `d` draws: only members of the
      population. */
  function RouletteParents(poblacion: Population, aptitud: seq<real>, draws: seq<real>, d: nat): (elegidos: Population)
    requires |aptitud| == |poblacion| && d <= |draws|
    ensures forall x :: x in elegidos ==> x in poblacion
  {
    if d == 0 then []
    else
      PickedMembers(poblacion, aptitud, draws[d - 1], |poblacion|);
      RouletteParents(poblacion, aptitud, draws, d - 1) + Picked(poblacion, aptitud, draws[d - 1], |poblacion|)
  }

  /** `d` draws append at most `d * len(poblacion)` individuals. */
  lemma {:induction false} RouletteParentsAtMost(poblacion: Population, aptitud: seq<real>, draws: seq<real>, d: nat)
    requires |aptitud| == |poblacion| && d <= |draws|
    ensures |RouletteParents(poblacion, aptitud, draws, d)| <= d * |poblacion|
  {
    if d > 0 {
      RouletteParentsAtMost(poblacion, aptitud, draws, d - 1);
      OneMore(d, |poblacion|);
    }
  }

  lemma OneMore(d: nat, n: nat)
    requires d > 0
    ensures (d - 1) * n + n == d * n
  {
  }

  /** When every draw is at most the total aptitude (`random()` returns a
      number below 1 and the cost shares add up to 1), every draw appends at
      least one individual. */
  lemma {:induction false} RouletteParentsAtLeastOnePerDraw(poblacion: Population, aptitud: seq<real>, draws: seq<real>, d: nat)
    requires |aptitud| == |poblacion| > 0 && d <= |draws|
    requires forall k :: 0 <= k < |aptitud| ==> aptitud[k] >= 0.0
    requires forall k :: 0 <= k < |draws| ==> draws[k] <= PrefixSum(aptitud, |poblacion|)
    ensures |RouletteParents(poblacion, aptitud, draws, d)| >= d
  {
    if d > 0 {
      RouletteParentsAtLeastOnePerDraw(poblacion, aptitud, draws, d - 1);
      DrawPicksOne(poblacion, aptitud, draws[d - 1]);
    }
  }

  /** A draw at most the total aptitude appends at least one individual. */
  lemma DrawPicksOne(poblacion: Population, aptitud: seq<real>, r: real)
    requires |aptitud| == |poblacion| > 0
    requires forall k :: 0 <= k < |aptitud| ==> aptitud[k] >= 0.0
    requires r <= PrefixSum(aptitud, |poblacion|)
    ensures |Picked(poblacion, aptitud, r, |poblacion|)| > 0
  {
    var m := RouletteDrawIsSuffix(poblacion, aptitud, r);
  }

  /** The draw loop of `GeneticoPermutaciones2.seleccion` (written out twice
      there, once for the fathers and once for the mothers). */
  method RouletteList(poblacion: Population, aptitud: seq<real>, draws: seq<real>) returns (elegidos: Population)
    requires |aptitud| == |poblacion| && |draws| == |poblacion|
    ensures elegidos == RouletteParents(poblacion, aptitud, draws, |draws|)
  {
    elegidos := [];
    var ind := 0;
    while ind < |poblacion|
      invariant 0 <= ind <= |poblacion|
      invariant elegidos == RouletteParents(poblacion, aptitud, draws, ind)
    {
      var picked := RouletteDraw(poblacion, aptitud, draws[ind]);
      elegidos := elegidos + picked;
      ind := ind + 1;
    }
  }

  /** The inner loop for one draw `numeroAleatorio`: scan the running sum
      and append every individual at which it reaches the draw. */
  method RouletteDraw(poblacion: Population, aptitud: seq<real>, numeroAleatorio: real) returns (picked: Population)
    requires |aptitud| == |poblacion|
    ensures picked == Picked(poblacion, aptitud, numeroAleatorio, |poblacion|)
  {
    picked := [];
    var sumaPorcentajes := 0.0;
    var ind2 := 0;
    while ind2 < |poblacion|
      invariant 0 <= ind2 <= |poblacion|
      invariant sumaPorcentajes == PrefixSum(aptitud, ind2)
      invariant picked == Picked(poblacion, aptitud, numeroAleatorio, ind2)
    {
      sumaPorcentajes := sumaPorcentajes + aptitud[ind2];
      if sumaPorcentajes >= numeroAleatorio {
        picked := picked + [poblacion[ind2]];
      }
      ind2 := ind2 + 1;
    }
  }

  /** `GeneticoPermutaciones2.seleccion`; `drawsPadres[k]` and
      `drawsMadres[k]` are the k-th `random()` of either loop. */
  method RouletteSelection(poblacion: Population, aptitud: seq<real>, drawsPadres: seq<real>, drawsMadres: seq<real>)
    returns (padres: Population, madres: Population)
    requires |aptitud| == |poblacion| && |drawsPadres| == |poblacion| && |drawsMadres| == |poblacion|
    ensures padres == RouletteParents(poblacion, aptitud, drawsPadres, |poblacion|)
    ensures madres == RouletteParents(poblacion, aptitud, drawsMadres, |poblacion|)
  {
    padres := RouletteList(poblacion, aptitud, drawsPadres);
    madres := RouletteList(poblacion, aptitud, drawsMadres);
  }
}
