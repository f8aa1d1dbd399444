# Permutation genetic algorithm (genetico.py) in Dafny

This project models the genetic-algorithm engine of `genetico.py` and proves
its properties. The engine works on individuals that are permutations of a
fixed symbol sequence, such as queen columns. It has:

- the generational loop `Genetico.busqueda`, in its tournament variant
  (`GeneticoPermutaciones1`) and its roulette variant (`GeneticoPermutaciones2`);
- the two aptitude functions: inverse cost `1/(1+cost)`, and cost share
  `cost/total` with the total accumulated in a loop;
- tournament selection and roulette selection;
- the pairing `cruza_listas` and the PMX-style crossover `cruza`, whose
  duplicate repair chases the segment mapping;
- swap mutation and insert (rotate) mutation.

Every random draw is an explicit input:

- the outcomes of `random.shuffle`;
- the cut points from `randint`;
- the per-position and per-individual Bernoulli outcomes of `random() < prob_muta`,
  with the positions drawn after them;
- the roulette thresholds from `random()`.

The search methods take these from an oracle record. It is indexed by the
generation number and by the size of the list the draws are for. Its
validity predicate states the ranges `random` respects.

The cost function (`problema.costo`) is a parameter of type `Individual -> nat`.
The initial population (`problema.estado_aleatorio()`) is a parameter too.
Aptitudes are exact reals.

The Python code keeps its state in a list reassigned per generation, plus
lists mutated in place inside the operators. It is modelled as `seq` values that
the methods' loops reassign. Each loop method is proved against a
specification function:

- `Repair`/`PmxChild` for the repair loops and `cruza`;
- `SwapMutated` for swap mutation;
- `Rotated` for insert mutation;
- `RouletteParents`/`Picked` for the roulette draw loops;
- `SumCosts` for `calcula_aptitud2`;
- `Winners` for a tournament round, `SwapMutatedAll` and `RotatedAll` for the
  two `mutacion` methods, and `Brood` for `cruza_listas` on selected parents;
- `TournamentStep`/`RouletteStep` for one generation, `TournamentRun`/`RouletteRun`
  for the population after the generations from `g` on, and `Best` for the
  final `min`.

The properties are then proved about those functions. The central invariant
of the whole search ties them together: every individual stays a permutation
of the symbols.

Where the code and its comments or docstrings disagree, the model follows the code:

- **Roulette.** The `continue` in the roulette scan does not leave the inner
  loop. A draw `r` therefore appends every individual whose running aptitude
  sum is at least `r`, not only the first one. With non-negative aptitudes
  these individuals form a suffix of the population. Each parent list can be
  longer than the population.
- **Insert mutation.** The loop `for P_menor in range(P_mayor)` reuses the
  name of the lower point. The mutation therefore rotates the prefix
  `[0, P_mayor]` left by one whatever the lower point was. The docstring's
  worked example instead moves the symbol at the lower point.
- **Cost share.** This aptitude is proportional to the cost, although the
  base class describes aptitude as inversely related to cost. Because of the
  roulette scan above, a draw appends individual `j` exactly when the shares
  of individuals `0..j` add up to at least the draw. An individual's chance
  of being appended therefore grows with its position, and the last one is
  appended by every draw. Only the first individual a draw appends is chosen
  with a chance equal to its share of the total cost.
- **Zero total cost.** The cost-share division fails (`ZeroDivisionError`)
  as soon as every individual of a non-empty population has cost 0. This
  happens, for example, when the initial population consists only of solutions.
- **Tournament with one individual.** The tournament search with
  `n_poblacion = 1` and no elitism empties the population in its first
  generation, so the final `min` raises.

Modules: `Individuals` (types, duplicate-freedom, permutation lemmas),
`Aptitude`, `Selection`, `Crossover`, `Mutation`, `Search`.

## Model

| member | source | states |
|---|---|---|
| Individuals.IndexOf | genetico.py:174 | `padre.index(v)`: a position holding `v`, and no earlier position holds it |
| Individuals.PermutationKeepsDistinct | genetico.py:167-177 | a permutation of a duplicate-free symbol sequence is duplicate-free and of the same length (with this, permutations of the symbols can be crossed) |
| Individuals.DistinctCoverIsPermutation | genetico.py:167-177 | two duplicate-free sequences of equal length, the first drawing its symbols from the second, are permutations of each other (how the crossover's children are shown to be permutations) |
| Aptitude.InverseCost | genetico.py:93 | `1.0/(1.0+cost)` lies in (0, 1] and times `1 + cost` gives 1 |
| Aptitude.InverseCostDecreasing | genetico.py:84-93 | a strictly lower cost gives a strictly higher inverse-cost aptitude, and conversely |
| Aptitude.InverseAptitudes | genetico.py:68 | one aptitude per individual, each in (0, 1]; individual i is strictly cheaper than j exactly when its aptitude is strictly higher |
| Aptitude.SumCosts | genetico.py:217-222 | the cost accumulated over the first `j` individuals is at least the cost of the `j`-th |
| Aptitude.SumCostsZero | genetico.py:217-222 | the accumulated cost is 0 exactly when every individual has cost 0 |
| Aptitude.TotalCost | genetico.py:217-222 | `calcula_aptitud2`'s loop returns the sum of the costs, which is 0 exactly when every cost is 0 |
| Aptitude.CostShare | genetico.py:239-241 | the share is non-negative, and times the total cost gives the individual's cost |
| Aptitude.CostShares | genetico.py:51 | one share per individual, each non-negative with `share * total == cost` (also stated as `ScaledCosts`); only defined when the population is empty or the total is positive (otherwise the Python code divides by zero) |
| Aptitude.PointwiseScaled | genetico.py:239-241 | shares that times the total give each cost satisfy `ScaledCosts` on every prefix |
| Aptitude.PrefixSumMonotone | genetico.py:268 | with non-negative aptitudes the running sum `Suma_Porcentajes` never decreases |
| Aptitude.ScaledPrefix | genetico.py:239-241 | the running sum of the shares times the total is the running sum of the costs |
| Aptitude.SharesSumToOne | genetico.py:234-241 | when the total cost is positive the shares add up to exactly 1 |
| Selection.Winner | genetico.py:149 | the winner is one of the two, its aptitude is at least both, and on equal aptitude it is the second |
| Selection.Winners | genetico.py:148-150 | the winners of the consecutive pairs of shuffled indices: `len(poblacion) // 2` of them, all members of the population |
| Selection.TournamentRound | genetico.py:145-150 | the loop returns exactly `Winners`: `len(poblacion) // 2` members, winner k the one `Winner` picks for the k-th consecutive pair of the shuffled indices |
| Selection.TournamentSelection | genetico.py:141-158 | fathers and mothers are exactly `Winners` of the first and of the second shuffle: each `len(poblacion) // 2` members of the population, each the winner of its shuffled pair |
| Selection.InverseCostTournament | genetico.py:149 | under inverse-cost aptitudes the strictly cheaper individual wins, and on equal cost the second |
| Selection.Picked | genetico.py:266-271 | one draw appends at most one individual per scanned position |
| Selection.PickedMembers | genetico.py:266-271 | the individuals one draw appends are members of the population |
| Selection.PickedSuffix | genetico.py:264-271 | with non-negative aptitudes one draw appends exactly the suffix `poblacion[m..j]` of those positions whose running sum reached the draw, none before `m` |
| Selection.RouletteDrawIsSuffix | genetico.py:264-271 | one draw over the whole population appends `poblacion[m..]`, and appends something exactly when the population is non-empty and the total aptitude reaches the draw |
| Selection.RouletteParents | genetico.py:263-271 | the list that `d` draws append consists only of members of the population |
| Selection.RouletteParentsAtMost | genetico.py:263-271 | `d` draws append at most `d * len(poblacion)` individuals |
| Selection.RouletteParentsAtLeastOnePerDraw | genetico.py:264-271 | when every draw is at most the total aptitude, `d` draws append at least `d` individuals |
| Selection.PickedNone | genetico.py:266-271 | a draw above every running sum up to `j` appends nobody there |
| Selection.RouletteDraw | genetico.py:265-271 | the inner loop with its running sum `Suma_Porcentajes` appends exactly `Picked` over the whole population |
| Selection.RouletteList | genetico.py:263-271 | the outer draw loop builds exactly `RouletteParents` over all draws |
| Selection.RouletteSelection | genetico.py:244-283 | fathers and mothers are the two draw lists built by `RouletteParents` |
| Crossover.SegmentIndex | genetico.py:174 | a symbol of the own segment sits, under `index`, at a segment position the chase has not used |
| Crossover.FreshImage | genetico.py:174 | the other parent's symbol at an unused position is not the image of a used one (that parent has no repeated symbol) |
| Crossover.ChaseAdvance | genetico.py:173-176 | going through an unused segment position that holds the current symbol keeps the chase invariant |
| Crossover.ChaseStep | genetico.py:173-176 | one step of a repair loop goes to a segment position never used before, so the loop ends |
| Crossover.Chase | genetico.py:173-176 | the repair loop's final symbol lies outside the own segment and is the start symbol or a symbol of the other parent's segment |
| Crossover.Repair | genetico.py:173-176 | the repaired symbol avoids the own segment and is the start symbol or one of the other segment |
| Crossover.RepairRoundTrip | genetico.py:173-176 | repairing with the parents' roles swapped undoes a repair, so no two positions repair to the same symbol |
| Crossover.PmxChild | genetico.py:170-176 | a child keeps its own parent's symbols on the segment `[corte1, corte2)` |
| Crossover.PmxGene | genetico.py:170-176 | inside the segment the symbol is the own parent's; outside it the symbol avoids the own segment and is the other parent's symbol at that position or a symbol of the other segment |
| Crossover.PmxChildIsPermutation | genetico.py:167-177 | each child is a permutation of the father |
| Crossover.Offspring | genetico.py:167-177 | two children of the father's length, both permutations of him, child 1 equal to the father and child 2 to the mother on `[corte1, corte2)` |
| Crossover.RepairLoop | genetico.py:173-176 | the `while` repair loop terminates with the symbol `Repair` specifies |
| Crossover.CrossPosition | genetico.py:171-176 | one iteration of `cruza`'s loop sets position i of both children to the symbol `PmxGene` gives and changes nothing else |
| Crossover.Cross | genetico.py:167-177 | `cruza` (identical at genetico.py:293-303) returns the two `PmxChild` children, both permutations of the father, each keeping its own parent's segment |
| Crossover.Children | genetico.py:111-114 | the first `k` pairs give `2 * k` children |
| Crossover.ChildrenAt | genetico.py:112-113 | children 2m and 2m+1 of the first `k` pairs are the two offspring of pair m |
| Crossover.ChildrenArePairwise | genetico.py:111-114 | children 2k and 2k+1 are the offspring of the k-th pair, both permutations of the k-th father |
| Crossover.CrossPair | genetico.py:112-113 | one iteration of `cruza_listas` extends the children of the first `k` pairs to those of the first `k + 1` |
| Crossover.CrossLists | genetico.py:111-114 | `2 * min(len(padres), len(madres))` children, exactly `Children` of all pairs the `zip` forms |
| Mutation.Swap | genetico.py:191 | the two positions exchange their symbols, all others stay, the multiset is kept |
| Mutation.SwapsUpTo | genetico.py:188-191 | after the first i swap draws the individual has the same multiset and length |
| Mutation.SwapsUpToNoneFired | genetico.py:188-189 | when no draw up to i fired, the individual is unchanged |
| Mutation.SwapStep | genetico.py:188-191 | one iteration of the swap loop extends the swaps up to i to the swaps up to i + 1 |
| Mutation.SwapMutated | genetico.py:186-192 | the swap-mutated individual is a permutation of the original, of the same length |
| Mutation.SwapPositions | genetico.py:187-192 | the in-place swap loop computes `SwapMutated` |
| Mutation.SwapMutatedAll | genetico.py:185-193 | one output per individual, each of its length and a permutation of it |
| Mutation.MutateSwap | genetico.py:185-193 | the loop over the population returns exactly `SwapMutatedAll`: output j is the swap mutation of individual j with its draws |
| Mutation.Larger | genetico.py:350-353 | after the reordering `P_mayor` is the larger of the two points and one of them |
| Mutation.RotatedPrefix | genetico.py:354-357 | the prefix rotation puts the first symbol at `P_mayor`, moves the symbols before it down by one, leaves the rest, and keeps the multiset |
| Mutation.RotatedPrefixStep | genetico.py:354-357 | one adjacent swap at `P_menor` turns the prefix rotated up to `P_menor` into the one rotated up to `P_menor + 1` |
| Mutation.Rotated | genetico.py:338-360 | an undrawn individual is unchanged; a drawn one is a permutation with the first symbol at the larger point and every position after it unchanged |
| Mutation.InsertMutation | genetico.py:338-360 | the ordering of the two points and the adjacent-swap loop compute `Rotated` for the individual's draw |
| Mutation.RotatedAll | genetico.py:333-363 | one output per individual, each of its length and a permutation of it |
| Mutation.MutateRotate | genetico.py:333-363 | the loop over the population returns exactly `RotatedAll`: output j is the rotation of individual j by its draw |
| Search.MinIndex | genetico.py:53 | `min(poblacion, key=costo)`: a position of least cost, the first such |
| Search.Elite | genetico.py:53 | with elitism on a non-empty population, a member of least cost; otherwise none |
| Search.Next | genetico.py:59-62 | the next population is the first `n_poblacion` children followed by the elite, if any |
| Search.MembersArePermutations | genetico.py:150 | selected individuals, being members of the population, are permutations of the symbols |
| Search.PairsAreParents | genetico.py:112 | a pair of permutations of the symbols satisfies what the crossover needs, and have the symbols' length |
| Search.ChildrenArePermutations | genetico.py:111-114 | the children list made of permutations of the fathers consists of permutations of the symbols, of the symbols' length |
| Search.Brood | genetico.py:111-114 | crossing permutations of the symbols gives `2 * min(len(padres), len(madres))` children, all permutations of the symbols and of their length |
| Search.Breed | genetico.py:111-114 | `cruza_listas` on permutations of the symbols returns exactly `Brood` |
| Search.MutantsArePermutations | genetico.py:57 | mutants, each a permutation of a child made of the symbols, are permutations of the symbols |
| Search.NextArePermutations | genetico.py:59-62 | truncated mutants followed by an elite drawn from the population stay permutations of the symbols |
| Search.TournamentChildren | genetico.py:68-74 | the mutated children of a tournament generation: `2 * (len // 2)` of them, all permutations of the symbols |
| Search.TournamentStep | genetico.py:68-79 | a tournament generation that does not fail leaves only permutations of the symbols |
| Search.TournamentStepFacts | genetico.py:68-79 | a tournament generation fails (empty `min`) exactly under elitism on an empty population; otherwise its size is `min(n_poblacion, 2 * (len // 2))` plus the elite, the elite comes last and the best cost does not increase |
| Search.EliteKeepsMinCost | genetico.py:61-62 | appending the first least-cost individual of the old population keeps the least cost from rising |
| Search.RouletteParentsCount | genetico.py:47-55 | with the cost shares of a population each roulette list has at least `len(poblacion)` members |
| Search.RouletteChildren | genetico.py:47-57 | the mutated children of a roulette generation: at least two per individual, all permutations of the symbols |
| Search.RouletteStep | genetico.py:47-62 | a roulette generation that does not fail leaves only permutations of the symbols |
| Search.RouletteStepFacts | genetico.py:47-62 | a roulette generation fails with a zero division exactly when the population is non-empty with all costs 0, and with an empty `min` exactly under elitism on an empty population; otherwise the size is at most `n_poblacion` plus the elite, exactly that when `n_poblacion <= 2 * len`, the elite comes last and the best cost does not increase |
| Search.TournamentGeneration | genetico.py:68-79 | the generation returns exactly `TournamentStep`; it fails (empty `min`) exactly under elitism on an empty population; otherwise all individuals stay permutations, the size is `min(n_poblacion, 2 * (len // 2))` plus the elite, the last one is the elite and the best cost does not increase |
| Search.RouletteGeneration | genetico.py:47-62 | the generation returns exactly `RouletteStep`; it fails with a zero division exactly when the population is non-empty with all costs 0, and with an empty `min` exactly under elitism on an empty population; otherwise all individuals stay permutations, the size is at most `n_poblacion` plus the elite, and exactly that when `n_poblacion <= 2 * len`; the last one is the elite and the best cost does not increase |
| Search.RouletteParentsOf | genetico.py:47-55 | the two lists are exactly `RouletteParents` over the cost shares and each list's draws; they have at least one individual per draw, all members of the population |
| Search.RouletteOffspring | genetico.py:57 | the result is exactly `RotatedAll` of `Brood`: `2 * min` permutations of the symbols |
| Search.TournamentRun | genetico.py:66-79 | the outcome of the tournament generations from `g` on: when no generation fails, a population of permutations of the symbols |
| Search.RouletteRun | genetico.py:40-62 | the outcome of the roulette generations from `g` on: when no generation fails, a population of permutations of the symbols |
| Search.Best | genetico.py:64 | `min(poblacion, key=costo)` of the final population: a member of least cost; it fails with the search's failure, or with an empty `min` on an empty population |
| Search.BestOf | genetico.py:81 | the final `min` computes `Best` |
| Search.BestIsPermutation | genetico.py:64 | the best of a population of permutations of the symbols is one |
| Search.TournamentBestFacts | genetico.py:66-81 | from a population of `n_poblacion`, or `2 * (n_poblacion // 2)` plus the elite, the tournament search fails, always with an empty `min`, exactly when the population is empty or a generation runs with `n_poblacion < 2` and no elitism; with elitism the result costs no more than the population's best |
| Search.RouletteBestFacts | genetico.py:40-64 | from a population of `n_poblacion`, or that plus the elite, the roulette search fails with an empty `min` exactly when the population is empty, with a zero division only when a generation runs, and whenever a generation runs on all costs 0; with elitism the result costs no more than the population's best |
| Search.TournamentGenerations | genetico.py:66-79 | the `for` loop computes exactly `TournamentRun` over all generations |
| Search.RouletteGenerations | genetico.py:40-62 | the `for` loop computes exactly `RouletteRun` over all generations |
| Search.SearchTournament | genetico.py:29-82 | the result is exactly `Best` of `TournamentRun` over all generations; the search fails (empty `min`) exactly when `n_poblacion == 0`, or `n_poblacion == 1` without elitism and with generations; otherwise the result is a permutation of the symbols, with elitism no costlier than the best initial individual, and with no generations the first best initial individual |
| Search.SearchRoulette | genetico.py:39-64 | the result is exactly `Best` of `RouletteRun` over all generations; the search fails with an empty `min` exactly when `n_poblacion == 0`; a zero division needs generations and a non-empty population, and happens whenever the initial population has all costs 0; otherwise the result is a permutation of the symbols, with elitism no costlier than the best initial individual, and with no generations the first best initial individual |

## Left out

- The `nreinas` problem adapter is not part of this model. The cost function and the initial population are parameters.
- The `random` module is left out. Every `shuffle`, `randint` and `random()` result is an input, and the validity predicates state the ranges it respects.
- The retry loop `while P_mayor==P_menor` is replaced by taking two distinct points as input. For individuals of length 1 that loop never ends. Those individuals can then only take the "no mutation" draw.
- The second `random.shuffle` of the tournament shuffles the already shuffled index list. It is modelled as an independent shuffle, since a permutation of a permutation is again a shuffle of the indices.
- Individuals of length 0 are left out. There `randint(0, -1)` raises. The cut-point validity needs `corte1 < corte2 <= n`, so it admits no crossover for them.
- Floating point is left out. Aptitudes, shares and running sums are exact reals, so rounding in the roulette's running sum is not modelled.
- The constructors, `prob_muta` and `nombre` are left out. The Bernoulli outcomes of `prob_muta` are in the draws, and `nombre` is only a label.
- The `Hacer_C` dispatch is two methods, one per variant. Running the tournament class with `Hacer_C == 2` (no `calcula_aptitud2`) or the roulette class with `Hacer_C != 2` (wrong arity of `calcula_aptitud`) raises in Python and is not modelled.
- The abstract `NotImplementedError` stubs of `Genetico` are dispatch scaffolding only.
- The timing and printing helpers `prueba_genetico_nreinas`/`prueba_genetico_nreinas2` and the `__main__` experiments are I/O and wall-clock time only.
- Negative `n_poblacion` and `n_generaciones` are left out. They are natural numbers here, so Python's negative slicing is not modelled.
- Search.SearchRoulette does not characterise a zero division in later generations. It depends on the draws; only the first-generation case and the necessary conditions are stated.
- Search.RouletteGeneration gives only a bound on the next population's size when `n_poblacion > 2 * len(poblacion)`. There the size depends on how many individuals the draws append.
