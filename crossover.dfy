/**
  The permutation crossover `cruza` (identical in `GeneticoPermutaciones1`
  and `GeneticoPermutaciones2`) and the pairing `cruza_listas`.

  Each child keeps its own parent's segment `[corte1, corte2)`.  Outside it,
  child 1 takes the mother's symbol and, while that symbol already lies in
  the father's segment, replaces it through the segment mapping
  father[p] -> mother[p]; child 2 does the same with the roles swapped.
  The cut points, drawn with `randint` in the Python code, are parameters.
 */
module Crossover {
  import opened Individuals

  /** The two cut points of one crossover. */
  datatype Cuts = Cuts(corte1: nat, corte2: nat)

  /** What `randint(0, n-1)` and `randint(corte1+1, n)` can return. */
  predicate ValidCuts(c: Cuts, n: nat) {
    c.corte1 < c.corte2 <= n
  }

  /** What a crossover needs of its parents: the father has no repeated
      symbol and the mother is a permutation of him. */
  predicate Parents(padre: Individual, madre: Individual) {
    Distinct(padre) && |madre| == |padre| && IsPermutationOf(madre, padre)
  }

  /** The positions of the preserved segment. */
  ghost function Segment(lo: nat, hi: nat): set<nat>
    decreases hi - lo
  {
    if lo < hi then {lo} + Segment(lo + 1, hi) else {}
  }

  lemma {:induction false} SegmentMembers(lo: nat, hi: nat, q: nat)
    ensures q in Segment(lo, hi) <==> lo <= q < hi
    decreases hi - lo
  {
    if lo < hi {
      SegmentMembers(lo + 1, hi, q);
    }
  }

  /** The symbols of `b` at the positions `used`. */
  ghost function Image(b: seq<int>, used: set<nat>): set<int> {
    set q | q in used && q < |b| :: b[q]
  }

  lemma ImageInSlice(b: seq<int>, lo: nat, hi: nat, used: set<nat>)
    requires lo <= hi <= |b| && forall q :: q in used ==> lo <= q < hi
    ensures forall w :: w in Image(b, used) ==> w in b[lo..hi]
  {
    forall q | q in used && q < |b| ensures b[q] in b[lo..hi] {
      InSlice(b, lo, hi, q);
    }
  }

  /**
    State of one repair chase `while v in A[lo:hi]: v = B[A.index(v)]`
    that started from `start`.  `used` is the set of segment positions the
    chase has gone through.  Every symbol seen so far is `start` or the
    image in `B` of a used position, and the current symbol was not seen
    before; this is why no position is used twice and the chase stops.
   */
  ghost predicate ChaseInv(a: seq<int>, b: seq<int>, lo: nat, hi: nat, start: int, v: int, used: set<nat>) {
    ChaseFrame(a, b, lo, hi, start) && (forall q :: q in used ==> lo <= q < hi) && Seen(a, b, start, v, used)
  }

  /** What the chase keeps fixed: the parents and their segment, and a start
      symbol outside the other parent's segment. */
  ghost predicate ChaseFrame(a: seq<int>, b: seq<int>, lo: nat, hi: nat, start: int) {
    Distinct(a) && Distinct(b) && |a| == |b| && lo <= hi <= |a| && start !in b[lo..hi]
  }

  /** The symbols seen so far: `v` is `start` or an image of a used
      position, and every used position holds `start` or an image but not
      `v`. */
  ghost predicate Seen(a: seq<int>, b: seq<int>, start: int, v: int, used: set<nat>) {
    && (v == start || v in Image(b, used))
    && forall q :: q in used ==> q < |a| && a[q] != v && (a[q] == start || a[q] in Image(b, used))
  }

  /** The symbol `v` of the segment sits at a segment position the chase
      has not used. */
  lemma SegmentIndex(a: seq<int>, lo: nat, hi: nat, v: int, used: set<nat>)
    requires Distinct(a) && lo <= hi <= |a| && v in a[lo..hi]
    requires forall q :: q in used ==> q < |a| && a[q] != v
    ensures v in a && lo <= IndexOf(a, v) < hi && IndexOf(a, v) !in used
    ensures IndexOf(a, v) in Segment(lo, hi)
  {
    var k :| 0 <= k < hi - lo && a[lo..hi][k] == v;
    assert a[lo + k] == v;
    assert IndexOf(a, v) == lo + k;
    SegmentMembers(lo, hi, lo + k);
  }

  /** A symbol of `b` at an unused position is not an image of a used one. */
  lemma FreshImage(b: seq<int>, used: set<nat>, p: nat)
    requires Distinct(b) && p < |b| && p !in used
    ensures b[p] !in Image(b, used)
  {
    forall q | q in used && q < |b| ensures b[q] != b[p] {
      assert q != p;
    }
  }

  /** Using position `p` adds its symbol of `b` to the image. */
  lemma ImageGrows(b: seq<int>, used: set<nat>, p: nat)
    requires p < |b|
    ensures Image(b, used) <= Image(b, used + {p}) && b[p] in Image(b, used + {p})
  {
  }

  /** Going through the unused position `p` that holds `v` to the symbol
      `b[p]`, seen nowhere before, keeps what has been seen consistent. */
  lemma SeenStep(a: seq<int>, b: seq<int>, start: int, v: int, used: set<nat>, p: nat)
    requires p < |a| && p < |b| && a[p] == v && Seen(a, b, start, v, used)
    requires b[p] != start && b[p] !in Image(b, used)
    ensures Seen(a, b, start, b[p], used + {p})
  {
    ImageGrows(b, used, p);
  }

  /** Going from `v` through the unused segment position `p` that holds it
      keeps the chase invariant. */
  lemma ChaseAdvance(a: seq<int>, b: seq<int>, lo: nat, hi: nat, start: int, v: int, used: set<nat>, p: nat)
    requires ChaseInv(a, b, lo, hi, start, v, used)
    requires lo <= p < hi && a[p] == v && p !in used
    ensures ChaseInv(a, b, lo, hi, start, b[p], used + {p})
  {
    NewSymbol(b, lo, hi, start, used, p);
    SeenStep(a, b, start, v, used, p);
  }

  /** The symbol at a fresh segment position is neither `start` nor seen. */
  lemma NewSymbol(b: seq<int>, lo: nat, hi: nat, start: int, used: set<nat>, p: nat)
    requires lo <= p < hi <= |b| && Distinct(b) && p !in used && start !in b[lo..hi]
    ensures b[p] != start && b[p] !in Image(b, used)
  {
    InSlice(b, lo, hi, p);
    FreshImage(b, used, p);
  }

  /** One step of the chase goes to a fresh segment position. */
  lemma ChaseStep(a: seq<int>, b: seq<int>, lo: nat, hi: nat, start: int, v: int, used: set<nat>)
    requires ChaseInv(a, b, lo, hi, start, v, used) && v in a[lo..hi]
    ensures v in a && lo <= IndexOf(a, v) < hi && IndexOf(a, v) !in used
    ensures ChaseInv(a, b, lo, hi, start, b[IndexOf(a, v)], used + {IndexOf(a, v)})
    ensures Segment(lo, hi) - (used + {IndexOf(a, v)}) < Segment(lo, hi) - used
  {
    SegmentIndex(a, lo, hi, v, used);
    var p := IndexOf(a, v);
    assert p in Segment(lo, hi) - used;
    ChaseAdvance(a, b, lo, hi, start, v, used, p);
  }

  /** Where the chase from `v` (in state `used`) stops. */
  ghost function Chase(a: seq<int>, b: seq<int>, lo: nat, hi: nat, start: int, v: int, used: set<nat>): (r: int)
    requires ChaseInv(a, b, lo, hi, start, v, used)
    ensures r !in a[lo..hi]
    ensures r == start || r in b[lo..hi]
    decreases Segment(lo, hi) - used
  {
    if v in a[lo..hi] then
      ChaseStep(a, b, lo, hi, start, v, used);
      var p := IndexOf(a, v);
      Chase(a, b, lo, hi, start, b[p], used + {p})
    else
      ImageInSlice(b, lo, hi, used);
      v
  }

  /** The repaired symbol for a position outside the segment whose first
      candidate is `s`. */
  ghost function Repair(a: seq<int>, b: seq<int>, lo: nat, hi: nat, s: int): (r: int)
    requires Distinct(a) && Distinct(b) && |a| == |b| && lo <= hi <= |a|
    requires s !in b[lo..hi]
    ensures r !in a[lo..hi]
    ensures r == s || r in b[lo..hi]
  {
    Chase(a, b, lo, hi, s, s, {})
  }

  /** The child built from `a` (kept on the segment) and `b` (outside it). */
  ghost function PmxChild(a: seq<int>, b: seq<int>, lo: nat, hi: nat): (r: seq<int>)
    requires Distinct(a) && Distinct(b) && |a| == |b| && lo <= hi <= |a|
    ensures |r| == |a|
    ensures forall i :: lo <= i < hi ==> r[i] == a[i]
  {
    seq(|a|, i requires 0 <= i < |a| => PmxGene(a, b, lo, hi, i))
  }

  ghost function PmxGene(a: seq<int>, b: seq<int>, lo: nat, hi: nat, i: nat): (r: int)
    requires Distinct(a) && Distinct(b) && |a| == |b| && lo <= hi <= |a| && i < |a|
    ensures lo <= i < hi ==> r == a[i]
    ensures !(lo <= i < hi) ==> r !in a[lo..hi] && (r == b[i] || r in b[lo..hi])
  {
    if lo <= i < hi then a[i]
    else
      NotInSlice(b, lo, hi, i);
      Repair(a, b, lo, hi, b[i])
  }

  // ---------------------------------------------------------------------
  // Why the children are permutations: a repair can be undone.
  // ---------------------------------------------------------------------

  /** `ps` is a run of the chase through segment positions from `v` to `w`. */
  ghost predicate Walk(a: seq<int>, b: seq<int>, lo: nat, hi: nat, v: int, ps: seq<nat>, w: int)
    decreases |ps|
  {
    if ps == [] then w == v
    else
      && lo <= ps[0] < hi && ps[0] < |a| && ps[0] < |b| && a[ps[0]] == v
      && Walk(a, b, lo, hi, b[ps[0]], ps[1..], w)
  }

  lemma {:induction false} WalkSnoc(a: seq<int>, b: seq<int>, lo: nat, hi: nat, v: int, ps: seq<nat>, w: int, p: nat)
    requires Walk(a, b, lo, hi, v, ps, w)
    requires lo <= p < hi && p < |a| && p < |b| && a[p] == w
    ensures Walk(a, b, lo, hi, v, ps + [p], b[p])
    decreases |ps|
  {
    if ps == [] {
      assert ([] + [p])[1..] == [];
    } else {
      WalkSnoc(a, b, lo, hi, b[ps[0]], ps[1..], w, p);
      assert (ps + [p])[1..] == ps[1..] + [p];
    }
  }

  lemma WalkCons(a: seq<int>, b: seq<int>, lo: nat, hi: nat, v: int, p: nat, rest: seq<nat>, w: int)
    requires lo <= p < hi && p < |a| && p < |b| && a[p] == v
    requires Walk(a, b, lo, hi, b[p], rest, w)
    ensures Walk(a, b, lo, hi, v, [p] + rest, w)
  {
    assert ([p] + rest)[0] == p && ([p] + rest)[1..] == rest;
  }

  /** The chase from `v` is a walk to the symbol it stops at. */
  lemma {:induction false} ChaseWalk(a: seq<int>, b: seq<int>, lo: nat, hi: nat, start: int, v: int, used: set<nat>)
    returns (ps: seq<nat>)
    requires ChaseInv(a, b, lo, hi, start, v, used)
    ensures Walk(a, b, lo, hi, v, ps, Chase(a, b, lo, hi, start, v, used))
    decreases Segment(lo, hi) - used
  {
    if v in a[lo..hi] {
      ChaseStep(a, b, lo, hi, start, v, used);
      var p := IndexOf(a, v);
      var rest := ChaseWalk(a, b, lo, hi, start, b[p], used + {p});
      WalkCons(a, b, lo, hi, v, p, rest, Chase(a, b, lo, hi, start, b[p], used + {p}));
      ps := [p] + rest;
    } else {
      ps := [];
    }
  }

  function Reverse(ps: seq<nat>): (r: seq<nat>)
    ensures |r| == |ps|
    ensures forall k :: 0 <= k < |ps| ==> r[k] == ps[|ps| - 1 - k]
  {
    if ps == [] then [] else Reverse(ps[1..]) + [ps[0]]
  }

  /** Read backwards, a walk through `a -> b` is a walk through `b -> a`. */
  lemma {:induction false} WalkReverse(a: seq<int>, b: seq<int>, lo: nat, hi: nat, v: int, ps: seq<nat>, w: int)
    requires Walk(a, b, lo, hi, v, ps, w)
    ensures Walk(b, a, lo, hi, w, Reverse(ps), v)
    decreases |ps|
  {
    if ps != [] {
      WalkReverse(a, b, lo, hi, b[ps[0]], ps[1..], w);
      WalkSnoc(b, a, lo, hi, w, Reverse(ps[1..]), b[ps[0]], ps[0]);
    }
  }

  /** A walk that ends outside the segment's symbols ends where every other
      such walk from the same symbol ends. */
  lemma {:induction false} WalkDeterministic(a: seq<int>, b: seq<int>, lo: nat, hi: nat, v: int,
                                             ps: seq<nat>, w: int, qs: seq<nat>, w': int)
    requires Distinct(a) && lo <= hi <= |a|
    requires Walk(a, b, lo, hi, v, ps, w) && w !in a[lo..hi]
    requires Walk(a, b, lo, hi, v, qs, w') && w' !in a[lo..hi]
    ensures w == w'
    decreases |ps|
  {
    if ps == [] {
      if qs != [] {
        InSlice(a, lo, hi, qs[0]);
        assert false;
      }
    } else if qs == [] {
      InSlice(a, lo, hi, ps[0]);
      assert false;
    } else {
      assert ps[0] == qs[0];
      WalkDeterministic(a, b, lo, hi, b[ps[0]], ps[1..], w, qs[1..], w');
    }
  }

  /** Repairing with the roles of the parents swapped undoes a repair. */
  lemma RepairRoundTrip(a: seq<int>, b: seq<int>, lo: nat, hi: nat, s: int)
    requires Distinct(a) && Distinct(b) && |a| == |b| && lo <= hi <= |a|
    requires s !in b[lo..hi]
    ensures Repair(b, a, lo, hi, Repair(a, b, lo, hi, s)) == s
  {
    var w := Repair(a, b, lo, hi, s);
    var ps := ChaseWalk(a, b, lo, hi, s, s, {});
    WalkReverse(a, b, lo, hi, s, ps, w);
    var s' := Repair(b, a, lo, hi, w);
    var qs := ChaseWalk(b, a, lo, hi, w, w, {});
    WalkDeterministic(b, a, lo, hi, w, Reverse(ps), s, qs, s');
  }

  /** Both children of a crossover are permutations of the father: the
      segment keeps the father's symbols, the repaired symbols lie outside
      it, and two positions never repair to the same symbol. */
  lemma PmxChildIsPermutation(a: seq<int>, b: seq<int>, lo: nat, hi: nat)
    requires Parents(a, b) && lo <= hi <= |a|
    ensures Distinct(b) && |b| == |a|
    ensures IsPermutationOf(PmxChild(a, b, lo, hi), a)
  {
    PermutationKeepsDistinct(b, a);
    var c := PmxChild(a, b, lo, hi);
    forall i | 0 <= i < |c| ensures c[i] in a && (!(lo <= i < hi) ==> c[i] !in a[lo..hi]) {
      if !(lo <= i < hi) {
        NotInSlice(b, lo, hi, i);
        assert c[i] == Repair(a, b, lo, hi, b[i]);
        assert c[i] in b;
        assert c[i] in multiset(a);
      }
    }
    forall i, j | 0 <= i < j < |c| ensures c[i] != c[j] {
      if lo <= i < hi && lo <= j < hi {
      } else if lo <= i < hi {
        InSlice(a, lo, hi, i);
      } else if lo <= j < hi {
        InSlice(a, lo, hi, j);
      } else {
        NotInSlice(b, lo, hi, i);
        NotInSlice(b, lo, hi, j);
        RepairRoundTrip(a, b, lo, hi, b[i]);
        RepairRoundTrip(a, b, lo, hi, b[j]);
      }
    }
    DistinctCoverIsPermutation(c, a);
  }

  /** The two children of one crossover, as `cruza` returns them. */
  ghost function Offspring(padre: Individual, madre: Individual, c: Cuts): (r: seq<Individual>)
    requires Parents(padre, madre) && ValidCuts(c, |padre|)
    ensures |r| == 2 && |r[0]| == |padre| && |r[1]| == |padre|
    ensures IsPermutationOf(r[0], padre) && IsPermutationOf(r[1], padre)
    ensures forall i :: c.corte1 <= i < c.corte2 ==> r[0][i] == padre[i] && r[1][i] == madre[i]
  {
    PmxChildIsPermutation(padre, madre, c.corte1, c.corte2);
    PmxChildIsPermutation(madre, padre, c.corte1, c.corte2);
    [PmxChild(padre, madre, c.corte1, c.corte2), PmxChild(madre, padre, c.corte1, c.corte2)]
  }

  // ---------------------------------------------------------------------
  // The operators.
  // ---------------------------------------------------------------------

  /** One repair loop of `cruza`: starting from `s`, while the symbol lies
      in `a[lo:hi]`, replace it by `b[a.index(symbol)]`. */
  method RepairLoop(a: seq<int>, b: seq<int>, lo: nat, hi: nat, s: int) returns (v: int)
    requires Distinct(a) && Distinct(b) && |a| == |b| && lo <= hi <= |a|
    requires s !in b[lo..hi]
    ensures v == Repair(a, b, lo, hi, s)
  {
    v := s;
    ghost var used: set<nat> := {};
    while v in a[lo..hi]
      invariant ChaseInv(a, b, lo, hi, s, v, used)
      invariant Chase(a, b, lo, hi, s, v, used) == Repair(a, b, lo, hi, s)
      decreases Segment(lo, hi) - used
    {
      ChaseStep(a, b, lo, hi, s, v, used);
      var p := IndexOf(a, v);
      used := used + {p};
      v := b[p];
    }
  }

  /** `cruza(padre, madre)` with the cut points it draws as parameters. */
  method Cross(padre: Individual, madre: Individual, corte1: nat, corte2: nat)
    returns (hijo1: Individual, hijo2: Individual)
    requires Parents(padre, madre) && ValidCuts(Cuts(corte1, corte2), |padre|)
    ensures Distinct(madre) && |madre| == |padre|
    ensures hijo1 == PmxChild(padre, madre, corte1, corte2)
    ensures hijo2 == PmxChild(madre, padre, corte1, corte2)
    ensures IsPermutationOf(hijo1, padre) && IsPermutationOf(hijo2, padre)
    ensures forall i :: corte1 <= i < corte2 ==> hijo1[i] == padre[i] && hijo2[i] == madre[i]
    ensures [hijo1, hijo2] == Offspring(padre, madre, Cuts(corte1, corte2))
  {
    PmxChildIsPermutation(padre, madre, corte1, corte2);
    PmxChildIsPermutation(madre, padre, corte1, corte2);
    ghost var c1 := PmxChild(padre, madre, corte1, corte2);
    ghost var c2 := PmxChild(madre, padre, corte1, corte2);
    var n := |padre|;
    hijo1, hijo2 := padre, madre;
    var i := 0;
    while i < n
      invariant 0 <= i <= n && |hijo1| == n && |hijo2| == n
      invariant forall j :: 0 <= j < i ==> hijo1[j] == c1[j] && hijo2[j] == c2[j]
      invariant forall j :: i <= j < n ==> hijo1[j] == padre[j] && hijo2[j] == madre[j]
    {
      hijo1, hijo2 := CrossPosition(padre, madre, corte1, corte2, i, hijo1, hijo2);
      i := i + 1;
    }
  }

  /** One iteration of the loop of `cruza`: outside the segment, position
      `i` swaps its symbols and repairs each. */
  method CrossPosition(padre: Individual, madre: Individual, corte1: nat, corte2: nat, i: nat,
                       hijo1: Individual, hijo2: Individual)
    returns (h1: Individual, h2: Individual)
    requires Distinct(padre) && Distinct(madre) && |madre| == |padre| && corte1 <= corte2 <= |padre|
    requires i < |padre| && |hijo1| == |padre| && |hijo2| == |padre|
    requires hijo1[i] == padre[i] && hijo2[i] == madre[i]
    ensures h1 == hijo1[i := PmxGene(padre, madre, corte1, corte2, i)]
    ensures h2 == hijo2[i := PmxGene(madre, padre, corte1, corte2, i)]
  {
    h1, h2 := hijo1, hijo2;
    if i < corte1 || i >= corte2 {
      h1, h2 := h1[i := h2[i]], h2[i := h1[i]];
      NotInSlice(madre, corte1, corte2, i);
      NotInSlice(padre, corte1, corte2, i);
      var r1 := RepairLoop(padre, madre, corte1, corte2, h1[i]);
      h1 := h1[i := r1];
      var r2 := RepairLoop(madre, padre, corte1, corte2, h2[i]);
      h2 := h2[i := r2];
    }
  }

  /** The k-th father and the k-th mother with the k-th cut points. */
  ghost predicate Pairs(padres: Population, madres: Population, cuts: seq<Cuts>) {
    && |cuts| <= |padres| && |cuts| <= |madres|
    && forall k :: 0 <= k < |cuts| ==> Parents(padres[k], madres[k]) && ValidCuts(cuts[k], |padres[k]|)
  }

  /** The children of the first `k` pairs, in order. */
  ghost function Children(padres: Population, madres: Population, cuts: seq<Cuts>, k: nat): (hijos: Population)
    requires Pairs(padres, madres, cuts) && k <= |cuts|
    ensures |hijos| == 2 * k
  {
    if k == 0 then []
    else Children(padres, madres, cuts, k - 1) + Offspring(padres[k - 1], madres[k - 1], cuts[k - 1])
  }

  /** Children 2m and 2m+1 are the offspring of the m-th pair. */
  lemma {:induction false} ChildrenAt(padres: Population, madres: Population, cuts: seq<Cuts>, k: nat, m: nat)
    requires Pairs(padres, madres, cuts) && m < k <= |cuts|
    ensures Children(padres, madres, cuts, k)[2 * m] == Offspring(padres[m], madres[m], cuts[m])[0]
    ensures Children(padres, madres, cuts, k)[2 * m + 1] == Offspring(padres[m], madres[m], cuts[m])[1]
  {
    var prev := Children(padres, madres, cuts, k - 1);
    var last := Offspring(padres[k - 1], madres[k - 1], cuts[k - 1]);
    assert Children(padres, madres, cuts, k) == prev + last;
    if m < k - 1 {
      ChildrenAt(padres, madres, cuts, k - 1, m);
      assert (prev + last)[2 * m] == prev[2 * m] && (prev + last)[2 * m + 1] == prev[2 * m + 1];
    } else {
      assert (prev + last)[2 * m] == last[0] && (prev + last)[2 * m + 1] == last[1];
    }
  }

  /** `cruza_listas`: the k-th father and the k-th mother (as `zip` pairs
      them) give children 2k and 2k+1; `cuts[k]` are that crossover's cut
      points. */
  method CrossLists(padres: Population, madres: Population, cuts: seq<Cuts>) returns (hijos: Population)
    requires |cuts| == Min(|padres|, |madres|) && Pairs(padres, madres, cuts)
    ensures |hijos| == 2 * Min(|padres|, |madres|)
    ensures hijos == Children(padres, madres, cuts, |cuts|)
  {
    hijos := [];
    var k := 0;
    while k < |cuts|
      invariant 0 <= k <= |cuts| && hijos == Children(padres, madres, cuts, k)
    {
      hijos := CrossPair(padres, madres, cuts, k, hijos);
      k := k + 1;
    }
  }

  /** One iteration of `cruza_listas`: the k-th pair's children appended. */
  method CrossPair(padres: Population, madres: Population, cuts: seq<Cuts>, k: nat, hijos: Population)
    returns (r: Population)
    requires Pairs(padres, madres, cuts) && k < |cuts| && hijos == Children(padres, madres, cuts, k)
    ensures r == Children(padres, madres, cuts, k + 1)
  {
    var hijo1, hijo2 := Cross(padres[k], madres[k], cuts[k].corte1, cuts[k].corte2);
    r := hijos + [hijo1, hijo2];
  }

  /** Every child of `cruza_listas` is a permutation of its father, and the
      children come in the order of the pairs. */
  lemma ChildrenArePairwise(padres: Population, madres: Population, cuts: seq<Cuts>)
    requires Pairs(padres, madres, cuts)
    ensures forall k :: 0 <= k < |cuts| ==>
      Children(padres, madres, cuts, |cuts|)[2 * k] == Offspring(padres[k], madres[k], cuts[k])[0] &&
      Children(padres, madres, cuts, |cuts|)[2 * k + 1] == Offspring(padres[k], madres[k], cuts[k])[1]
    ensures forall k :: 0 <= k < |cuts| ==>
      IsPermutationOf(Children(padres, madres, cuts, |cuts|)[2 * k], padres[k]) &&
      IsPermutationOf(Children(padres, madres, cuts, |cuts|)[2 * k + 1], padres[k])
  {
    forall k | 0 <= k < |cuts|
      ensures Children(padres, madres, cuts, |cuts|)[2 * k] == Offspring(padres[k], madres[k], cuts[k])[0]
      ensures Children(padres, madres, cuts, |cuts|)[2 * k + 1] == Offspring(padres[k], madres[k], cuts[k])[1]
    {
      ChildrenAt(padres, madres, cuts, |cuts|, k);
    }
  }
}
