/**
  The generational loop `Genetico.busqueda`, in its two variants:

  - the tournament variant (`GeneticoPermutaciones1`, the branch taken when
    `Hacer_C != 2`): inverse-cost aptitudes, tournament selection, crossover,
    swap mutation;
  - the roulette variant (`GeneticoPermutaciones2`, the branch taken when
    `Hacer_C == 2`): cost-share aptitudes, roulette selection, crossover,
    insert mutation.

  Each generation records the elite `min(poblacion, key=costo)` before the
  new children replace the population, truncates the children to
  `n_poblacion` and appends the elite.  The random draws of every
  generation come from an oracle record indexed by the generation number
  and the size of the list the draw is for; the initial population
  `estado_aleatorio()` and the cost function are parameters.

  The Python exceptions the loop can raise become `Failure` outcomes:
  `min` of an empty list (`EmptyMin`) and the cost-share division by a
  total cost of zero (`ZeroDivision`).
 */
module Search {
  import opened Individuals
  import opened Aptitude
  import opened Selection
  import opened Crossover
  import opened Mutation

  datatype SearchError = EmptyMin | ZeroDivision

  datatype Outcome<T> = Ok(value: T) | Failure(error: SearchError)

  datatype Option<T> = None | Some(value: T)

  /** Every individual is a permutation of `symbols`. */
  predicate AllPermutations(poblacion: Population, symbols: seq<int>) {
    forall i :: 0 <= i < |poblacion| ==> IsPermutationOf(poblacion[i], symbols)
  }

  /** Every individual has cost 0 (so the total cost is 0). */
  predicate AllZero(poblacion: Population, cost: Individual -> nat) {
    forall i :: 0 <= i < |poblacion| ==> cost(poblacion[i]) == 0
  }

  /** `min(poblacion, key=costo)`: the first individual of least cost. */
  function MinIndex(poblacion: Population, cost: Individual -> nat): (m: nat)
    requires |poblacion| > 0
    ensures m < |poblacion|
    ensures forall j :: 0 <= j < |poblacion| ==> cost(poblacion[m]) <= cost(poblacion[j])
    ensures forall j :: 0 <= j < m ==> cost(poblacion[j]) > cost(poblacion[m])
  {
    if |poblacion| == 1 then 0
    else
      var init := poblacion[..|poblacion| - 1];
      var b := MinIndex(init, cost);
      assert forall j :: 0 <= j < |init| ==> init[j] == poblacion[j];
      if cost(poblacion[|poblacion| - 1]) < cost(poblacion[b]) then |poblacion| - 1 else b
  }

  /** The least cost in a non-empty population. */
  function MinCost(poblacion: Population, cost: Individual -> nat): (c: nat)
    requires |poblacion| > 0
    ensures forall j :: 0 <= j < |poblacion| ==> c <= cost(poblacion[j])
  {
    cost(poblacion[MinIndex(poblacion, cost)])
  }

  /** One for an appended elite, zero otherwise. */
  function Bit(b: bool): (n: nat)
    ensures n <= 1 && (n == 1 <==> b)
  {
    if b then 1 else 0
  }

  // ---------------------------------------------------------------------
  // The random draws.
  // ---------------------------------------------------------------------

  predicate ValidCutList(cs: seq<Cuts>, m: nat, n: nat) {
    |cs| == m && forall k :: 0 <= k < m ==> ValidCuts(cs[k], n)
  }

  predicate ValidSwapList(ds: seq<seq<SwapDraw>>, m: nat, n: nat) {
    |ds| == m && forall k :: 0 <= k < m ==> ValidSwapDraws(ds[k], n)
  }

  predicate ValidRotateList(ds: seq<RotateDraw>, m: nat, n: nat) {
    |ds| == m && forall k :: 0 <= k < m ==> ValidRotateDraw(ds[k], n)
  }

  /** `random()` values: in [0, 1). */
  predicate ValidProbabilities(rs: seq<real>, m: nat) {
    |rs| == m && forall k :: 0 <= k < m ==> 0.0 <= rs[k] < 1.0
  }

  /** The draws of the tournament variant: `baraja1(g, n)` and
      `baraja2(g, n)` are the index orders after the two shuffles of
      generation `g` for a population of `n`, `cuts(g, m)` the cut points of
      its `m` crossovers and `swaps(g, m)` the swap draws for its `m`
      children. */
  datatype TournamentDraws = TournamentDraws(
    baraja1: (nat, nat) -> seq<nat>,
    baraja2: (nat, nat) -> seq<nat>,
    cuts: (nat, nat) -> seq<Cuts>,
    swaps: (nat, nat) -> seq<seq<SwapDraw>>)

  /** Draws that `random` can produce for individuals of length `n`. */
  ghost predicate ValidTournamentDraws(o: TournamentDraws, n: nat) {
    (forall g, p :: IsShuffle(o.baraja1(g, p), p)) &&
    (forall g, p :: IsShuffle(o.baraja2(g, p), p)) &&
    (forall g, m :: ValidCutList(o.cuts(g, m), m, n)) &&
    (forall g, m :: ValidSwapList(o.swaps(g, m), m, n))
  }

  /** The draws of the roulette variant: `padres(g, p)` and `madres(g, p)`
      are the `random()` values of the two selection loops of generation
      `g` for a population of `p`, `cuts(g, m)` the cut points and
      `rotate(g, m)` the insert-mutation draws for its `m` children. */
  datatype RouletteDraws = RouletteDraws(
    padres: (nat, nat) -> seq<real>,
    madres: (nat, nat) -> seq<real>,
    cuts: (nat, nat) -> seq<Cuts>,
    rotate: (nat, nat) -> seq<RotateDraw>)

  ghost predicate ValidRouletteDraws(o: RouletteDraws, n: nat) {
    (forall g, p :: ValidProbabilities(o.padres(g, p), p)) &&
    (forall g, p :: ValidProbabilities(o.madres(g, p), p)) &&
    (forall g, m :: ValidCutList(o.cuts(g, m), m, n)) &&
    (forall g, m :: ValidRotateList(o.rotate(g, m), m, n))
  }

  // ---------------------------------------------------------------------
  // The permutation invariant through one generation.
  // ---------------------------------------------------------------------

  /** Selected individuals are members of the population, hence
      permutations of its symbols. */
  lemma MembersArePermutations(elegidos: Population, poblacion: Population, symbols: seq<int>)
    requires AllPermutations(poblacion, symbols)
    requires forall k :: 0 <= k < |elegidos| ==> elegidos[k] in poblacion
    ensures AllPermutations(elegidos, symbols)
  {
    forall k | 0 <= k < |elegidos| ensures IsPermutationOf(elegidos[k], symbols) {
      var i :| 0 <= i < |poblacion| && poblacion[i] == elegidos[k];
    }
  }

  /** Two permutations of a duplicate-free symbol sequence can be crossed. */
  lemma PairsAreParents(padres: Population, madres: Population, symbols: seq<int>)
    requires Distinct(symbols)
    requires AllPermutations(padres, symbols) && AllPermutations(madres, symbols)
    ensures forall k :: 0 <= k < Min(|padres|, |madres|) ==>
      Parents(padres[k], madres[k]) && |padres[k]| == |symbols|
  {
    forall k | 0 <= k < Min(|padres|, |madres|)
      ensures Parents(padres[k], madres[k]) && |padres[k]| == |symbols|
    {
      PermutationKeepsDistinct(padres[k], symbols);
      PermutationKeepsDistinct(madres[k], symbols);
    }
  }

  /** Children that are permutations of their fathers are permutations of
      the symbols. */
  lemma ChildrenArePermutations(hijos: Population, padres: Population, m: nat, symbols: seq<int>)
    requires |hijos| == 2 * m && m <= |padres| && AllPermutations(padres, symbols)
    requires forall k :: 0 <= k < m ==>
      IsPermutationOf(hijos[2 * k], padres[k]) && IsPermutationOf(hijos[2 * k + 1], padres[k])
    ensures AllPermutations(hijos, symbols)
    ensures forall j :: 0 <= j < |hijos| ==> |hijos[j]| == |symbols|
  {
    forall j | 0 <= j < |hijos|
      ensures IsPermutationOf(hijos[j], symbols) && |hijos[j]| == |symbols|
    {
      var k := j / 2;
      assert j == 2 * k || j == 2 * k + 1;
      assert IsPermutationOf(padres[k], symbols);
      assert |hijos[j]| == |multiset(hijos[j])| == |multiset(symbols)| == |symbols|;
    }
  }

  /** The children crossed from permutations of `symbols` are permutations
      of `symbols`, `2 * Min(|padres|, |madres|)` of them. */
  ghost function Brood(padres: Population, madres: Population, cuts: seq<Cuts>, symbols: seq<int>): (hijos: Population)
    requires Distinct(symbols) && AllPermutations(padres, symbols) && AllPermutations(madres, symbols)
    requires ValidCutList(cuts, Min(|padres|, |madres|), |symbols|)
    ensures |hijos| == 2 * Min(|padres|, |madres|)
    ensures AllPermutations(hijos, symbols)
    ensures forall j :: 0 <= j < |hijos| ==> |hijos[j]| == |symbols|
  {
    PairsAreParents(padres, madres, symbols);
    assert Pairs(padres, madres, cuts);
    ChildrenArePairwise(padres, madres, cuts);
    ChildrenArePermutations(Children(padres, madres, cuts, |cuts|), padres, |cuts|, symbols);
    Children(padres, madres, cuts, |cuts|)
  }

  /** `cruza_listas` on selected parents. */
  method Breed(padres: Population, madres: Population, cuts: seq<Cuts>, symbols: seq<int>)
    returns (hijos: Population)
    requires Distinct(symbols) && AllPermutations(padres, symbols) && AllPermutations(madres, symbols)
    requires ValidCutList(cuts, Min(|padres|, |madres|), |symbols|)
    ensures hijos == Brood(padres, madres, cuts, symbols)
  {
    PairsAreParents(padres, madres, symbols);
    assert Pairs(padres, madres, cuts);
    hijos := CrossLists(padres, madres, cuts);
  }

  /** Mutants of permutations of `symbols` are permutations of `symbols`. */
  lemma MutantsArePermutations(mutada: Population, hijos: Population, symbols: seq<int>)
    requires |mutada| == |hijos| && AllPermutations(hijos, symbols)
    requires forall j :: 0 <= j < |hijos| ==> IsPermutationOf(mutada[j], hijos[j])
    ensures AllPermutations(mutada, symbols)
  {
    forall j | 0 <= j < |mutada| ensures IsPermutationOf(mutada[j], symbols) {
      assert IsPermutationOf(hijos[j], symbols);
    }
  }

  /** The next population, made of mutants and an elite of `poblacion`,
      keeps the permutations of `symbols`. */
  lemma NextArePermutations(mutada: Population, nPoblacion: nat, elite: Option<Individual>,
                            poblacion: Population, symbols: seq<int>)
    requires AllPermutations(mutada, symbols) && AllPermutations(poblacion, symbols)
    requires elite.Some? ==> elite.value in poblacion
    ensures AllPermutations(Next(mutada, nPoblacion, elite), symbols)
  {
    var siguiente := Next(mutada, nPoblacion, elite);
    forall j | 0 <= j < |siguiente| ensures IsPermutationOf(siguiente[j], symbols) {
      if j < Min(nPoblacion, |mutada|) {
        assert siguiente[j] == mutada[j];
      } else {
        var i :| 0 <= i < |poblacion| && poblacion[i] == elite.value;
      }
    }
  }

  /** `poblacion[:n_poblacion]`, then the elite when there is one. */
  function Next(mutada: Population, nPoblacion: nat, elite: Option<Individual>): (siguiente: Population)
    ensures |siguiente| == Min(nPoblacion, |mutada|) + Bit(elite.Some?)
    ensures forall j :: 0 <= j < Min(nPoblacion, |mutada|) ==> siguiente[j] == mutada[j]
    ensures elite.Some? ==> siguiente[|siguiente| - 1] == elite.value
  {
    mutada[..Min(nPoblacion, |mutada|)] + (if elite.Some? then [elite.value] else [])
  }

  // ---------------------------------------------------------------------
  // One generation.
  // ---------------------------------------------------------------------

  /** `min(poblacion, key=costo) if elitismo else None`; `None` also on an
      empty population, where `min` raises. */
  function Elite(poblacion: Population, cost: Individual -> nat, elitismo: bool): (e: Option<Individual>)
    ensures e.Some? <==> elitismo && |poblacion| > 0
    ensures e.Some? ==> e.value in poblacion
    ensures e.Some? ==> forall j :: 0 <= j < |poblacion| ==> cost(e.value) <= cost(poblacion[j])
  {
    if elitismo && |poblacion| > 0 then Some(poblacion[MinIndex(poblacion, cost)]) else None
  }

  /** The children of generation `g` of the tournament variant: the
      winners of both tournaments crossed pairwise, then swap-mutated. */
  ghost function TournamentChildren(poblacion: Population, cost: Individual -> nat, symbols: seq<int>,
                                    o: TournamentDraws, g: nat): (mutada: Population)
    requires Distinct(symbols) && AllPermutations(poblacion, symbols) && ValidTournamentDraws(o, |symbols|)
    ensures |mutada| == 2 * (|poblacion| / 2)
    ensures AllPermutations(mutada, symbols)
  {
    var aptitud := InverseAptitudes(poblacion, cost);
    var padres := Winners(poblacion, aptitud, o.baraja1(g, |poblacion|));
    var madres := Winners(poblacion, aptitud, o.baraja2(g, |poblacion|));
    MembersArePermutations(padres, poblacion, symbols);
    MembersArePermutations(madres, poblacion, symbols);
    var hijos := Brood(padres, madres, o.cuts(g, Min(|padres|, |madres|)), symbols);
    var mutada := SwapMutatedAll(hijos, o.swaps(g, |hijos|));
    MutantsArePermutations(mutada, hijos, symbols);
    mutada
  }

  /** What generation `g` of the tournament variant makes of `poblacion`:
      `min` fails on an empty population when there is elitism; otherwise
      the children are truncated to `nPoblacion` and followed by the
      elite. */
  ghost function TournamentStep(poblacion: Population, cost: Individual -> nat, symbols: seq<int>,
                                nPoblacion: nat, elitismo: bool, o: TournamentDraws, g: nat): (r: Outcome<Population>)
    requires Distinct(symbols) && AllPermutations(poblacion, symbols) && ValidTournamentDraws(o, |symbols|)
    ensures r.Ok? ==> AllPermutations(r.value, symbols)
  {
    if elitismo && |poblacion| == 0 then Failure(EmptyMin)
    else
      var mutada := TournamentChildren(poblacion, cost, symbols, o, g);
      NextArePermutations(mutada, nPoblacion, Elite(poblacion, cost, elitismo), poblacion, symbols);
      Ok(Next(mutada, nPoblacion, Elite(poblacion, cost, elitismo)))
  }

  /** A tournament generation fails exactly when elitism meets an empty
      population; otherwise it has `Min(nPoblacion, 2 * (|poblacion| / 2))`
      children followed by the elite, which keeps the least cost from
      rising. */
  lemma TournamentStepFacts(poblacion: Population, cost: Individual -> nat, symbols: seq<int>,
                            nPoblacion: nat, elitismo: bool, o: TournamentDraws, g: nat)
    requires Distinct(symbols) && AllPermutations(poblacion, symbols) && ValidTournamentDraws(o, |symbols|)
    ensures var r := TournamentStep(poblacion, cost, symbols, nPoblacion, elitismo, o, g);
      && (r.Failure? <==> elitismo && |poblacion| == 0)
      && (r.Failure? ==> r.error == EmptyMin)
      && (r.Ok? ==> |r.value| == Min(nPoblacion, 2 * (|poblacion| / 2)) + Bit(elitismo))
      && (r.Ok? && elitismo ==> |r.value| > 0 && r.value[|r.value| - 1] == poblacion[MinIndex(poblacion, cost)])
      && (r.Ok? && elitismo ==> MinCost(r.value, cost) <= MinCost(poblacion, cost))
  {
    var r := TournamentStep(poblacion, cost, symbols, nPoblacion, elitismo, o, g);
    if r.Ok? && elitismo {
      EliteKeepsMinCost(r.value, poblacion, cost);
    }
  }

  /** A population whose last member is the first least-cost individual of
      `poblacion` has a least cost no higher than `poblacion`'s. */
  lemma EliteKeepsMinCost(siguiente: Population, poblacion: Population, cost: Individual -> nat)
    requires |siguiente| > 0 && |poblacion| > 0
    requires siguiente[|siguiente| - 1] == poblacion[MinIndex(poblacion, cost)]
    ensures MinCost(siguiente, cost) <= MinCost(poblacion, cost)
  {
    assert MinCost(siguiente, cost) <= cost(siguiente[|siguiente| - 1]);
  }

  /** One generation of the tournament variant (generation number `g`). */
  method TournamentGeneration(poblacion: Population, cost: Individual -> nat, symbols: seq<int>,
                              nPoblacion: nat, elitismo: bool, o: TournamentDraws, g: nat)
    returns (r: Outcome<Population>)
    requires Distinct(symbols) && AllPermutations(poblacion, symbols) && ValidTournamentDraws(o, |symbols|)
    ensures r == TournamentStep(poblacion, cost, symbols, nPoblacion, elitismo, o, g)
    ensures r.Failure? <==> elitismo && |poblacion| == 0
    ensures r.Failure? ==> r.error == EmptyMin
    ensures r.Ok? ==> AllPermutations(r.value, symbols)
    ensures r.Ok? ==> |r.value| == Min(nPoblacion, 2 * (|poblacion| / 2)) + Bit(elitismo)
    ensures r.Ok? && elitismo ==> |r.value| > 0 && r.value[|r.value| - 1] == poblacion[MinIndex(poblacion, cost)]
    ensures r.Ok? && elitismo ==> MinCost(r.value, cost) <= MinCost(poblacion, cost)
  {
    var aptitud := InverseAptitudes(poblacion, cost);
    var elite := Elite(poblacion, cost, elitismo);
    if elitismo && elite.None? {
      return Failure(EmptyMin);
    }
    var padres, madres := TournamentSelection(poblacion, aptitud, o.baraja1(g, |poblacion|), o.baraja2(g, |poblacion|));
    MembersArePermutations(padres, poblacion, symbols);
    MembersArePermutations(madres, poblacion, symbols);
    var hijos := Breed(padres, madres, o.cuts(g, Min(|padres|, |madres|)), symbols);
    var mutada := MutateSwap(hijos, o.swaps(g, |hijos|));
    r := Ok(Next(mutada, nPoblacion, elite));
    assert r == TournamentStep(poblacion, cost, symbols, nPoblacion, elitismo, o, g);
    TournamentStepFacts(poblacion, cost, symbols, nPoblacion, elitismo, o, g);
  }

  /** Each roulette selection over cost shares appends at least one
      individual per draw, so it has at least `|poblacion|` members. */
  lemma RouletteParentsCount(poblacion: Population, cost: Individual -> nat, costoTotal: nat, draws: seq<real>)
    requires costoTotal == SumCosts(poblacion, cost, |poblacion|) && (|poblacion| == 0 || costoTotal > 0)
    requires ValidProbabilities(draws, |poblacion|)
    ensures |RouletteParents(poblacion, CostShares(poblacion, cost, costoTotal), draws, |poblacion|)| >= |poblacion|
  {
    if |poblacion| > 0 {
      var aptitud := CostShares(poblacion, cost, costoTotal);
      SharesSumToOne(poblacion, cost, aptitud, costoTotal);
      RouletteParentsAtLeastOnePerDraw(poblacion, aptitud, draws, |poblacion|);
    }
  }

  /** The children of generation `g` of the roulette variant: both roulette
      selections over the cost shares crossed pairwise, then
      insert-mutated; at least two per individual. */
  ghost function RouletteChildren(poblacion: Population, cost: Individual -> nat, symbols: seq<int>,
                                  o: RouletteDraws, g: nat): (mutada: Population)
    requires Distinct(symbols) && AllPermutations(poblacion, symbols) && ValidRouletteDraws(o, |symbols|)
    requires |poblacion| == 0 || SumCosts(poblacion, cost, |poblacion|) > 0
    ensures |mutada| >= 2 * |poblacion|
    ensures AllPermutations(mutada, symbols)
  {
    var costoTotal := SumCosts(poblacion, cost, |poblacion|);
    var aptitud := CostShares(poblacion, cost, costoTotal);
    var padres := RouletteParents(poblacion, aptitud, o.padres(g, |poblacion|), |poblacion|);
    var madres := RouletteParents(poblacion, aptitud, o.madres(g, |poblacion|), |poblacion|);
    RouletteParentsCount(poblacion, cost, costoTotal, o.padres(g, |poblacion|));
    RouletteParentsCount(poblacion, cost, costoTotal, o.madres(g, |poblacion|));
    MembersArePermutations(padres, poblacion, symbols);
    MembersArePermutations(madres, poblacion, symbols);
    var hijos := Brood(padres, madres, o.cuts(g, Min(|padres|, |madres|)), symbols);
    var mutada := RotatedAll(hijos, o.rotate(g, |hijos|));
    MutantsArePermutations(mutada, hijos, symbols);
    mutada
  }

  /** What generation `g` of the roulette variant makes of `poblacion`:
      the cost shares divide by zero when every cost is zero, `min` fails
      on an empty population when there is elitism; otherwise the children
      are truncated to `nPoblacion` and followed by the elite. */
  ghost function RouletteStep(poblacion: Population, cost: Individual -> nat, symbols: seq<int>,
                              nPoblacion: nat, elitismo: bool, o: RouletteDraws, g: nat): (r: Outcome<Population>)
    requires Distinct(symbols) && AllPermutations(poblacion, symbols) && ValidRouletteDraws(o, |symbols|)
    ensures r.Ok? ==> AllPermutations(r.value, symbols)
  {
    if |poblacion| > 0 && SumCosts(poblacion, cost, |poblacion|) == 0 then Failure(ZeroDivision)
    else if elitismo && |poblacion| == 0 then Failure(EmptyMin)
    else
      var mutada := RouletteChildren(poblacion, cost, symbols, o, g);
      NextArePermutations(mutada, nPoblacion, Elite(poblacion, cost, elitismo), poblacion, symbols);
      Ok(Next(mutada, nPoblacion, Elite(poblacion, cost, elitismo)))
  }

  /** A roulette generation fails with `ZeroDivision` exactly when every
      cost is zero in a non-empty population, and with `EmptyMin` exactly
      when elitism meets an empty population; otherwise it has at most
      `nPoblacion` children, exactly that many when the population has at
      least half as many individuals, followed by the elite, which keeps
      the least cost from rising. */
  lemma RouletteStepFacts(poblacion: Population, cost: Individual -> nat, symbols: seq<int>,
                          nPoblacion: nat, elitismo: bool, o: RouletteDraws, g: nat)
    requires Distinct(symbols) && AllPermutations(poblacion, symbols) && ValidRouletteDraws(o, |symbols|)
    ensures var r := RouletteStep(poblacion, cost, symbols, nPoblacion, elitismo, o, g);
      && (r == Failure(ZeroDivision) <==> |poblacion| > 0 && AllZero(poblacion, cost))
      && (r == Failure(EmptyMin) <==> elitismo && |poblacion| == 0)
      && (r.Ok? ==> |r.value| <= nPoblacion + Bit(elitismo))
      && (r.Ok? && nPoblacion <= 2 * |poblacion| ==> |r.value| == nPoblacion + Bit(elitismo))
      && (r.Ok? && elitismo ==> |r.value| > 0 && r.value[|r.value| - 1] == poblacion[MinIndex(poblacion, cost)])
      && (r.Ok? && elitismo ==> MinCost(r.value, cost) <= MinCost(poblacion, cost))
  {
    SumCostsZero(poblacion, cost, |poblacion|);
    var r := RouletteStep(poblacion, cost, symbols, nPoblacion, elitismo, o, g);
    if r.Ok? && elitismo {
      EliteKeepsMinCost(r.value, poblacion, cost);
    }
  }

  /** One generation of the roulette variant (generation number `g`). */
  method RouletteGeneration(poblacion: Population, cost: Individual -> nat, symbols: seq<int>,
                            nPoblacion: nat, elitismo: bool, o: RouletteDraws, g: nat)
    returns (r: Outcome<Population>)
    requires Distinct(symbols) && AllPermutations(poblacion, symbols) && ValidRouletteDraws(o, |symbols|)
    ensures r == RouletteStep(poblacion, cost, symbols, nPoblacion, elitismo, o, g)
    ensures r == Failure(ZeroDivision) <==> |poblacion| > 0 && AllZero(poblacion, cost)
    ensures r == Failure(EmptyMin) <==> elitismo && |poblacion| == 0
    ensures r.Ok? ==> AllPermutations(r.value, symbols)
    ensures r.Ok? ==> |r.value| <= nPoblacion + Bit(elitismo)
    ensures r.Ok? && nPoblacion <= 2 * |poblacion| ==> |r.value| == nPoblacion + Bit(elitismo)
    ensures r.Ok? && elitismo ==> |r.value| > 0 && r.value[|r.value| - 1] == poblacion[MinIndex(poblacion, cost)]
    ensures r.Ok? && elitismo ==> MinCost(r.value, cost) <= MinCost(poblacion, cost)
  {
    var costoTotal := TotalCost(poblacion, cost);
    if |poblacion| > 0 && costoTotal == 0 {
      return Failure(ZeroDivision);
    }
    var elite := Elite(poblacion, cost, elitismo);
    if elitismo && elite.None? {
      return Failure(EmptyMin);
    }
    var padres, madres := RouletteParentsOf(poblacion, cost, costoTotal, o, g);
    MembersArePermutations(padres, poblacion, symbols);
    MembersArePermutations(madres, poblacion, symbols);
    var mutada := RouletteOffspring(padres, madres, symbols, o, g);
    r := Ok(Next(mutada, nPoblacion, elite));
    assert r == RouletteStep(poblacion, cost, symbols, nPoblacion, elitismo, o, g);
    RouletteStepFacts(poblacion, cost, symbols, nPoblacion, elitismo, o, g);
  }

  /** The cost shares and the two roulette selections of generation `g`:
      each list has at least one individual per draw. */
  method RouletteParentsOf(poblacion: Population, cost: Individual -> nat, costoTotal: nat, o: RouletteDraws, g: nat)
    returns (padres: Population, madres: Population)
    requires costoTotal == SumCosts(poblacion, cost, |poblacion|) && (|poblacion| == 0 || costoTotal > 0)
    requires ValidProbabilities(o.padres(g, |poblacion|), |poblacion|)
    requires ValidProbabilities(o.madres(g, |poblacion|), |poblacion|)
    ensures padres == RouletteParents(poblacion, CostShares(poblacion, cost, costoTotal), o.padres(g, |poblacion|), |poblacion|)
    ensures madres == RouletteParents(poblacion, CostShares(poblacion, cost, costoTotal), o.madres(g, |poblacion|), |poblacion|)
    ensures |padres| >= |poblacion| && |madres| >= |poblacion|
    ensures forall k :: 0 <= k < |padres| ==> padres[k] in poblacion
    ensures forall k :: 0 <= k < |madres| ==> madres[k] in poblacion
  {
    var aptitud := CostShares(poblacion, cost, costoTotal);
    var drawsPadres, drawsMadres := o.padres(g, |poblacion|), o.madres(g, |poblacion|);
    padres, madres := RouletteSelection(poblacion, aptitud, drawsPadres, drawsMadres);
    RouletteParentsCount(poblacion, cost, costoTotal, drawsPadres);
    RouletteParentsCount(poblacion, cost, costoTotal, drawsMadres);
  }

  /** Crossing and insert-mutating the selected parents gives
      `2 * Min(|padres|, |madres|)` permutations of the symbols. */
  method RouletteOffspring(padres: Population, madres: Population, symbols: seq<int>, o: RouletteDraws, g: nat)
    returns (mutada: Population)
    requires Distinct(symbols) && AllPermutations(padres, symbols) && AllPermutations(madres, symbols)
    requires ValidRouletteDraws(o, |symbols|)
    ensures mutada == RotatedAll(Brood(padres, madres, o.cuts(g, Min(|padres|, |madres|)), symbols),
                                 o.rotate(g, 2 * Min(|padres|, |madres|)))
    ensures |mutada| == 2 * Min(|padres|, |madres|)
    ensures AllPermutations(mutada, symbols)
  {
    var hijos := Breed(padres, madres, o.cuts(g, Min(|padres|, |madres|)), symbols);
    mutada := MutateRotate(hijos, o.rotate(g, |hijos|));
    MutantsArePermutations(mutada, hijos, symbols);
  }

  // ---------------------------------------------------------------------
  // The search.
  // ---------------------------------------------------------------------

  /** The outcome of generations `g` to `fin - 1` of the tournament variant
      from `poblacion`: a failing generation ends the search with its
      failure. */
  ghost function TournamentRun(poblacion: Population, cost: Individual -> nat, symbols: seq<int>,
                               nPoblacion: nat, elitismo: bool, o: TournamentDraws, g: nat, fin: nat): (r: Outcome<Population>)
    requires Distinct(symbols) && AllPermutations(poblacion, symbols) && ValidTournamentDraws(o, |symbols|)
    ensures r.Ok? ==> AllPermutations(r.value, symbols)
    decreases fin - g
  {
    if fin <= g then Ok(poblacion)
    else
      var siguiente := TournamentStep(poblacion, cost, symbols, nPoblacion, elitismo, o, g);
      if siguiente.Failure? then siguiente
      else TournamentRun(siguiente.value, cost, symbols, nPoblacion, elitismo, o, g + 1, fin)
  }

  /** A generation that does not fail hands its population to the next. */
  lemma TournamentRunStep(poblacion: Population, cost: Individual -> nat, symbols: seq<int>,
                   nPoblacion: nat, elitismo: bool, o: TournamentDraws, g: nat, fin: nat, siguiente: Outcome<Population>)
    requires Distinct(symbols) && AllPermutations(poblacion, symbols) && ValidTournamentDraws(o, |symbols|)
    requires g < fin && siguiente == TournamentStep(poblacion, cost, symbols, nPoblacion, elitismo, o, g)
    ensures TournamentRun(poblacion, cost, symbols, nPoblacion, elitismo, o, g, fin)
         == if siguiente.Failure? then siguiente
            else TournamentRun(siguiente.value, cost, symbols, nPoblacion, elitismo, o, g + 1, fin)
  {
  }

  /** The outcome of generations `g` to `fin - 1` of the roulette variant
      from `poblacion`. */
  ghost function RouletteRun(poblacion: Population, cost: Individual -> nat, symbols: seq<int>,
                             nPoblacion: nat, elitismo: bool, o: RouletteDraws, g: nat, fin: nat): (r: Outcome<Population>)
    requires Distinct(symbols) && AllPermutations(poblacion, symbols) && ValidRouletteDraws(o, |symbols|)
    ensures r.Ok? ==> AllPermutations(r.value, symbols)
    decreases fin - g
  {
    if fin <= g then Ok(poblacion)
    else
      var siguiente := RouletteStep(poblacion, cost, symbols, nPoblacion, elitismo, o, g);
      if siguiente.Failure? then siguiente
      else RouletteRun(siguiente.value, cost, symbols, nPoblacion, elitismo, o, g + 1, fin)
  }

  /** A generation that does not fail hands its population to the next. */
  lemma RouletteRunStep(poblacion: Population, cost: Individual -> nat, symbols: seq<int>,
                   nPoblacion: nat, elitismo: bool, o: RouletteDraws, g: nat, fin: nat, siguiente: Outcome<Population>)
    requires Distinct(symbols) && AllPermutations(poblacion, symbols) && ValidRouletteDraws(o, |symbols|)
    requires g < fin && siguiente == RouletteStep(poblacion, cost, symbols, nPoblacion, elitismo, o, g)
    ensures RouletteRun(poblacion, cost, symbols, nPoblacion, elitismo, o, g, fin)
         == if siguiente.Failure? then siguiente
            else RouletteRun(siguiente.value, cost, symbols, nPoblacion, elitismo, o, g + 1, fin)
  {
  }

  /** `min(poblacion, key=costo)` of the final population, or the failure
      that ended the search. */
  function Best(final: Outcome<Population>, cost: Individual -> nat): (r: Outcome<Individual>)
    ensures r.Ok? ==> final.Ok? && r.value in final.value
    ensures r.Ok? ==> forall j :: 0 <= j < |final.value| ==> cost(r.value) <= cost(final.value[j])
    ensures r.Failure? ==> (final.Failure? && r.error == final.error) || (final.Ok? && |final.value| == 0 && r.error == EmptyMin)
  {
    match final
    case Failure(e) => Failure(e)
    case Ok(poblacion) => if |poblacion| == 0 then Failure(EmptyMin) else Ok(poblacion[MinIndex(poblacion, cost)])
  }

  /** Truncating the children of `nPoblacion` individuals, or of
      `2 * (nPoblacion / 2)` plus the elite, keeps `2 * (nPoblacion / 2)`. */
  lemma PairsKept(n: nat, nPoblacion: nat, elitismo: bool)
    requires n == nPoblacion || n == 2 * (nPoblacion / 2) + Bit(elitismo)
    ensures Min(nPoblacion, 2 * (n / 2)) == 2 * (nPoblacion / 2)
  {
  }

  /** The best individual of a population of permutations is one. */
  lemma BestIsPermutation(final: Outcome<Population>, cost: Individual -> nat, symbols: seq<int>)
    requires final.Ok? ==> AllPermutations(final.value, symbols)
    ensures Best(final, cost).Ok? ==> IsPermutationOf(Best(final, cost).value, symbols)
  {
    var r := Best(final, cost);
    if r.Ok? {
      var i :| 0 <= i < |final.value| && final.value[i] == r.value;
    }
  }

  /** From a population of `nPoblacion` (or, after a generation, of
      `2 * (nPoblacion / 2)` plus the elite), the tournament search fails
      exactly when the population is empty or once a generation leaves no
      pair to cross and there is no elite, always with `EmptyMin`; with
      elitism the result costs no more than the population's best. */
  lemma {:induction false} TournamentBestFacts(poblacion: Population, cost: Individual -> nat, symbols: seq<int>,
                                               nPoblacion: nat, elitismo: bool, o: TournamentDraws, g: nat, fin: nat)
    requires Distinct(symbols) && AllPermutations(poblacion, symbols) && ValidTournamentDraws(o, |symbols|)
    requires |poblacion| == nPoblacion || |poblacion| == 2 * (nPoblacion / 2) + Bit(elitismo)
    ensures var r := Best(TournamentRun(poblacion, cost, symbols, nPoblacion, elitismo, o, g, fin), cost);
      && (r.Failure? <==> |poblacion| == 0 || (g < fin && nPoblacion / 2 == 0 && !elitismo))
      && (r.Failure? ==> r.error == EmptyMin)
      && (r.Ok? && elitismo && |poblacion| > 0 ==> cost(r.value) <= MinCost(poblacion, cost))
    decreases fin - g
  {
    if g < fin {
      var siguiente := TournamentStep(poblacion, cost, symbols, nPoblacion, elitismo, o, g);
      TournamentStepFacts(poblacion, cost, symbols, nPoblacion, elitismo, o, g);
      TournamentRunStep(poblacion, cost, symbols, nPoblacion, elitismo, o, g, fin, siguiente);
      if siguiente.Ok? {
        PairsKept(|poblacion|, nPoblacion, elitismo);
        TournamentBestFacts(siguiente.value, cost, symbols, nPoblacion, elitismo, o, g + 1, fin);
      }
    }
  }

  /** The `for` loop of `busqueda` with `Hacer_C != 2`: the generations
      run in turn, and the first failure leaves the loop. */
  method TournamentGenerations(inicial: Population, cost: Individual -> nat, symbols: seq<int>,
                               nPoblacion: nat, nGeneraciones: nat, elitismo: bool, o: TournamentDraws)
    returns (final: Outcome<Population>)
    requires Distinct(symbols) && AllPermutations(inicial, symbols) && ValidTournamentDraws(o, |symbols|)
    ensures final == TournamentRun(inicial, cost, symbols, nPoblacion, elitismo, o, 0, nGeneraciones)
  {
    var poblacion := inicial;
    var g := 0;
    while g < nGeneraciones
      invariant 0 <= g <= nGeneraciones
      invariant AllPermutations(poblacion, symbols)
      invariant TournamentRun(inicial, cost, symbols, nPoblacion, elitismo, o, 0, nGeneraciones)
             == TournamentRun(poblacion, cost, symbols, nPoblacion, elitismo, o, g, nGeneraciones)
    {
      var siguiente := TournamentGeneration(poblacion, cost, symbols, nPoblacion, elitismo, o, g);
      TournamentRunStep(poblacion, cost, symbols, nPoblacion, elitismo, o, g, nGeneraciones, siguiente);
      if siguiente.Failure? {
        return siguiente;
      }
      poblacion := siguiente.value;
      g := g + 1;
    }
    final := Ok(poblacion);
  }

  /** `min(poblacion, key=costo)` of the final population. */
  method BestOf(final: Outcome<Population>, cost: Individual -> nat) returns (r: Outcome<Individual>)
    ensures r == Best(final, cost)
  {
    if final.Failure? {
      return Failure(final.error);
    }
    if |final.value| == 0 {
      return Failure(EmptyMin);
    }
    r := Ok(final.value[MinIndex(final.value, cost)]);
  }

  /** `busqueda` with `Hacer_C != 2` on a `GeneticoPermutaciones1`;
      `inicial` is the initial population. */
  method SearchTournament(inicial: Population, cost: Individual -> nat, symbols: seq<int>,
                          nPoblacion: nat, nGeneraciones: nat, elitismo: bool, o: TournamentDraws)
    returns (r: Outcome<Individual>)
    requires Distinct(symbols) && |inicial| == nPoblacion && AllPermutations(inicial, symbols)
    requires ValidTournamentDraws(o, |symbols|)
    ensures r == Best(TournamentRun(inicial, cost, symbols, nPoblacion, elitismo, o, 0, nGeneraciones), cost)
    ensures r.Failure? <==> nPoblacion == 0 || (nPoblacion == 1 && !elitismo && nGeneraciones > 0)
    ensures r.Failure? ==> r.error == EmptyMin
    ensures r.Ok? ==> IsPermutationOf(r.value, symbols)
    ensures r.Ok? && elitismo ==> cost(r.value) <= MinCost(inicial, cost)
    ensures r.Ok? && nGeneraciones == 0 ==> r.value == inicial[MinIndex(inicial, cost)]
  {
    var final := TournamentGenerations(inicial, cost, symbols, nPoblacion, nGeneraciones, elitismo, o);
    r := BestOf(final, cost);
    TournamentBestFacts(inicial, cost, symbols, nPoblacion, elitismo, o, 0, nGeneraciones);
    BestIsPermutation(final, cost, symbols);
  }

  /** From a population of `nPoblacion` (or, after a generation, of
      `nPoblacion` plus the elite), the roulette search fails with
      `EmptyMin` exactly when the population is empty, with `ZeroDivision`
      only from a non-empty population with a generation to run, and
      certainly when that population's costs are all zero; with elitism
      the result costs no more than the population's best. */
  lemma {:induction false} RouletteBestFacts(poblacion: Population, cost: Individual -> nat, symbols: seq<int>,
                                             nPoblacion: nat, elitismo: bool, o: RouletteDraws, g: nat, fin: nat)
    requires Distinct(symbols) && AllPermutations(poblacion, symbols) && ValidRouletteDraws(o, |symbols|)
    requires |poblacion| == nPoblacion || |poblacion| == nPoblacion + Bit(elitismo)
    ensures var r := Best(RouletteRun(poblacion, cost, symbols, nPoblacion, elitismo, o, g, fin), cost);
      && (r == Failure(EmptyMin) <==> |poblacion| == 0)
      && (r == Failure(ZeroDivision) ==> |poblacion| > 0 && g < fin)
      && (|poblacion| > 0 && g < fin && AllZero(poblacion, cost) ==> r == Failure(ZeroDivision))
      && (r.Ok? && elitismo && |poblacion| > 0 ==> cost(r.value) <= MinCost(poblacion, cost))
    decreases fin - g
  {
    if g < fin {
      var siguiente := RouletteStep(poblacion, cost, symbols, nPoblacion, elitismo, o, g);
      RouletteStepFacts(poblacion, cost, symbols, nPoblacion, elitismo, o, g);
      RouletteRunStep(poblacion, cost, symbols, nPoblacion, elitismo, o, g, fin, siguiente);
      if siguiente.Ok? {
        RouletteBestFacts(siguiente.value, cost, symbols, nPoblacion, elitismo, o, g + 1, fin);
      }
    }
  }

  /** The `for` loop of `busqueda` with `Hacer_C == 2`. */
  method RouletteGenerations(inicial: Population, cost: Individual -> nat, symbols: seq<int>,
                             nPoblacion: nat, nGeneraciones: nat, elitismo: bool, o: RouletteDraws)
    returns (final: Outcome<Population>)
    requires Distinct(symbols) && AllPermutations(inicial, symbols) && ValidRouletteDraws(o, |symbols|)
    ensures final == RouletteRun(inicial, cost, symbols, nPoblacion, elitismo, o, 0, nGeneraciones)
  {
    var poblacion := inicial;
    var g := 0;
    while g < nGeneraciones
      invariant 0 <= g <= nGeneraciones
      invariant AllPermutations(poblacion, symbols)
      invariant RouletteRun(inicial, cost, symbols, nPoblacion, elitismo, o, 0, nGeneraciones)
             == RouletteRun(poblacion, cost, symbols, nPoblacion, elitismo, o, g, nGeneraciones)
    {
      var siguiente := RouletteGeneration(poblacion, cost, symbols, nPoblacion, elitismo, o, g);
      RouletteRunStep(poblacion, cost, symbols, nPoblacion, elitismo, o, g, nGeneraciones, siguiente);
      if siguiente.Failure? {
        return siguiente;
      }
      poblacion := siguiente.value;
      g := g + 1;
    }
    final := Ok(poblacion);
  }

  /** `busqueda` with `Hacer_C == 2` on a `GeneticoPermutaciones2`. */
  method SearchRoulette(inicial: Population, cost: Individual -> nat, symbols: seq<int>,
                        nPoblacion: nat, nGeneraciones: nat, elitismo: bool, o: RouletteDraws)
    returns (r: Outcome<Individual>)
    requires Distinct(symbols) && |inicial| == nPoblacion && AllPermutations(inicial, symbols)
    requires ValidRouletteDraws(o, |symbols|)
    ensures r == Best(RouletteRun(inicial, cost, symbols, nPoblacion, elitismo, o, 0, nGeneraciones), cost)
    ensures r == Failure(EmptyMin) <==> nPoblacion == 0
    ensures r == Failure(ZeroDivision) ==> nPoblacion > 0 && nGeneraciones > 0
    ensures nPoblacion > 0 && nGeneraciones > 0 && AllZero(inicial, cost) ==> r == Failure(ZeroDivision)
    ensures r.Ok? ==> IsPermutationOf(r.value, symbols)
    ensures r.Ok? && elitismo ==> cost(r.value) <= MinCost(inicial, cost)
    ensures r.Ok? && nGeneraciones == 0 ==> r.value == inicial[MinIndex(inicial, cost)]
  {
    var final := RouletteGenerations(inicial, cost, symbols, nPoblacion, nGeneraciones, elitismo, o);
    r := BestOf(final, cost);
    RouletteBestFacts(inicial, cost, symbols, nPoblacion, elitismo, o, 0, nGeneraciones);
    BestIsPermutation(final, cost, symbols);
  }
}
