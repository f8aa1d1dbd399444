/**
  The two mutation operators.

  - `GeneticoPermutaciones1.mutacion`: every position of every individual
    independently, with probability `prob_muta`, swaps with a random
    position.
  - `GeneticoPermutaciones2.mutacion` ("insert" mutation): with
    probability `prob_muta` per individual, two distinct points are drawn
    and ordered, and the loop of adjacent swaps rotates the prefix up to the
    larger point left by one.

  The Bernoulli outcomes and the drawn positions are parameters.
 */
module Mutation {
  import opened Individuals

  /** The draws for one position of the swap mutation: `random() <
      prob_muta` failed (`Keep`), or it fired and `randint` returned `k`. */
  datatype SwapDraw = Keep | SwapWith(k: nat)

  /** One draw per position, each target a valid position. */
  predicate ValidSwapDraws(ds: seq<SwapDraw>, n: nat) {
    |ds| == n && forall i :: 0 <= i < n && ds[i].SwapWith? ==> ds[i].k < n
  }

  /** `s` with the symbols at `i` and `k` exchanged. */
  function Swap(s: seq<int>, i: nat, k: nat): (r: seq<int>)
    requires i < |s| && k < |s|
    ensures |r| == |s| && r[i] == s[k] && r[k] == s[i]
    ensures forall m :: 0 <= m < |s| && m != i && m != k ==> r[m] == s[m]
    ensures multiset(r) == multiset(s)
  {
    s[i := s[k]][k := s[i]]
  }

  /** The individual once positions `0..i-1` have had their swap draw. */
  function SwapsUpTo(s: seq<int>, ds: seq<SwapDraw>, i: nat): (r: seq<int>)
    requires ValidSwapDraws(ds, |s|) && i <= |s|
    ensures |r| == |s| && multiset(r) == multiset(s)
  {
    if i == 0 then s
    else
      var t := SwapsUpTo(s, ds, i - 1);
      match ds[i - 1]
      case Keep => t
      case SwapWith(k) => Swap(t, i - 1, k)
  }

  /** When no draw up to `i` fired, the individual is unchanged. */
  lemma {:induction false} SwapsUpToNoneFired(s: seq<int>, ds: seq<SwapDraw>, i: nat)
    requires ValidSwapDraws(ds, |s|) && i <= |s|
    requires forall m :: 0 <= m < i ==> ds[m] == Keep
    ensures SwapsUpTo(s, ds, i) == s
  {
    if i > 0 {
      SwapsUpToNoneFired(s, ds, i - 1);
    }
  }

  /** The individual after the whole swap mutation. */
  function SwapMutated(s: seq<int>, ds: seq<SwapDraw>): (r: seq<int>)
    requires ValidSwapDraws(ds, |s|)
    ensures |r| == |s| && IsPermutationOf(r, s)
  {
    SwapsUpTo(s, ds, |s|)
  }

  /** The inner loop of `GeneticoPermutaciones1.mutacion` on one individual. */
  method SwapPositions(individuo: Individual, ds: seq<SwapDraw>) returns (r: Individual)
    requires ValidSwapDraws(ds, |individuo|)
    ensures r == SwapMutated(individuo, ds)
  {
    r := individuo;
    var i := 0;
    while i < |individuo|
      invariant 0 <= i <= |individuo| && r == SwapsUpTo(individuo, ds, i)
    {
      r := SwapStep(individuo, ds, i, r);
      i := i + 1;
    }
  }

  /** One iteration of that loop: position `i` swaps with its drawn
      target, if its draw fired. */
  method SwapStep(individuo: Individual, ds: seq<SwapDraw>, i: nat, r: Individual) returns (r': Individual)
    requires ValidSwapDraws(ds, |individuo|) && i < |individuo| && r == SwapsUpTo(individuo, ds, i)
    ensures r' == SwapsUpTo(individuo, ds, i + 1)
  {
    r' := r;
    if ds[i].SwapWith? {
      var k := ds[i].k;
      r' := r'[i := r[k]][k := r[i]];
    }
  }

  /** Every individual swap-mutated with its own draws. */
  function SwapMutatedAll(poblacion: Population, draws: seq<seq<SwapDraw>>): (mutada: Population)
    requires |draws| == |poblacion|
    requires forall j :: 0 <= j < |poblacion| ==> ValidSwapDraws(draws[j], |poblacion[j]|)
    ensures |mutada| == |poblacion|
    ensures forall j :: 0 <= j < |poblacion| ==>
      |mutada[j]| == |poblacion[j]| && IsPermutationOf(mutada[j], poblacion[j])
  {
    seq(|poblacion|, j requires 0 <= j < |poblacion| => SwapMutated(poblacion[j], draws[j]))
  }

  /** `GeneticoPermutaciones1.mutacion`; `draws[j]` are the draws for the
      j-th individual. */
  method MutateSwap(poblacion: Population, draws: seq<seq<SwapDraw>>) returns (mutada: Population)
    requires |draws| == |poblacion|
    requires forall j :: 0 <= j < |poblacion| ==> ValidSwapDraws(draws[j], |poblacion[j]|)
    ensures mutada == SwapMutatedAll(poblacion, draws)
    ensures |mutada| == |poblacion|
    ensures forall j :: 0 <= j < |poblacion| ==> mutada[j] == SwapMutated(poblacion[j], draws[j])
  {
    mutada := [];
    var j := 0;
    while j < |poblacion|
      invariant 0 <= j <= |poblacion| && |mutada| == j
      invariant forall m :: 0 <= m < j ==> mutada[m] == SwapMutated(poblacion[m], draws[m])
    {
      var individuo := SwapPositions(poblacion[j], draws[j]);
      mutada := mutada + [individuo];
      j := j + 1;
    }
  }

  /** The draws for one individual of the insert mutation: `random() <
      prob_muta` failed (`NoRotate`), or it fired and the retry loop
      returned the two distinct points `(pMenor, pMayor)`, not yet ordered. */
  datatype RotateDraw = NoRotate | Rotate(pMenor: nat, pMayor: nat)

  predicate ValidRotateDraw(d: RotateDraw, n: nat) {
    d.Rotate? ==> d.pMenor != d.pMayor && d.pMenor < n && d.pMayor < n
  }

  /** The larger of the two drawn points, `P_mayor` once they are ordered. */
  function Larger(d: RotateDraw): (p: nat)
    requires d.Rotate?
    ensures d.pMenor <= p && d.pMayor <= p
    ensures d.pMenor == p || d.pMayor == p
  {
    if d.pMenor < d.pMayor then d.pMayor else d.pMenor
  }

  /** The prefix `s[0..m]` rotated left by one: `s[0]` moves to `m` and
      `s[1..m]` move down; the rest stays. */
  function RotatedPrefix(s: seq<int>, m: nat): (r: seq<int>)
    requires m < |s|
    ensures |r| == |s| && IsPermutationOf(r, s)
    ensures r[m] == s[0]
    ensures forall k :: 0 <= k < m ==> r[k] == s[k + 1]
    ensures forall k :: m < k < |s| ==> r[k] == s[k]
  {
    assert s == [s[0]] + s[1..m + 1] + s[m + 1..];
    s[1..m + 1] + [s[0]] + s[m + 1..]
  }

  /** Swapping positions `m` and `m + 1` of the prefix rotated up to `m`
      rotates it up to `m + 1`: one round of the adjacent-swap loop. */
  lemma RotatedPrefixStep(s: seq<int>, m: nat)
    requires m + 1 < |s|
    ensures var t := RotatedPrefix(s, m);
      t[m := t[m + 1]][m + 1 := t[m]] == RotatedPrefix(s, m + 1)
  {
    var t := RotatedPrefix(s, m);
    var u := t[m := t[m + 1]][m + 1 := t[m]];
    var w := RotatedPrefix(s, m + 1);
    forall k | 0 <= k < |s| ensures u[k] == w[k] {
      if k < m {
        assert u[k] == t[k] == s[k + 1];
      } else if k == m {
        assert u[k] == t[m + 1] == s[m + 1];
      } else if k == m + 1 {
        assert u[k] == t[m] == s[0];
      } else {
        assert u[k] == t[k] == s[k];
      }
    }
    assert |u| == |w|;
  }

  /** The individual after one individual's insert-mutation draw. */
  function Rotated(s: seq<int>, d: RotateDraw): (r: seq<int>)
    requires ValidRotateDraw(d, |s|)
    ensures |r| == |s| && IsPermutationOf(r, s)
    ensures d.NoRotate? ==> r == s
    ensures d.Rotate? ==> forall k :: Larger(d) < k < |s| ==> r[k] == s[k]
    ensures d.Rotate? ==> r[Larger(d)] == s[0]
  {
    match d
    case NoRotate => s
    case Rotate(_, _) => RotatedPrefix(s, Larger(d))
  }

  /** The body of `GeneticoPermutaciones2.mutacion` for one individual. */
  method InsertMutation(individuo: Individual, d: RotateDraw) returns (r: Individual)
    requires ValidRotateDraw(d, |individuo|)
    ensures r == Rotated(individuo, d)
  {
    r := individuo;
    if d.Rotate? {
      var pMenor, pMayor := d.pMenor, d.pMayor;
      if pMayor < pMenor {
        pMenor, pMayor := pMayor, pMenor;
      }
      // As in the Python code, the loop variable reuses the name of the lower
      // point, so the lower point plays no part in the rotation.
      pMenor := 0;
      while pMenor < pMayor
        invariant 0 <= pMenor <= pMayor < |individuo|
        invariant r == RotatedPrefix(individuo, pMenor)
      {
        RotatedPrefixStep(individuo, pMenor);
        var dato2 := r[pMenor];
        r := r[pMenor := r[pMenor + 1]];
        r := r[pMenor + 1 := dato2];
        pMenor := pMenor + 1;
      }
    }
  }

  /** Every individual insert-mutated with its own draw. */
  function RotatedAll(poblacion: Population, draws: seq<RotateDraw>): (mutada: Population)
    requires |draws| == |poblacion|
    requires forall j :: 0 <= j < |poblacion| ==> ValidRotateDraw(draws[j], |poblacion[j]|)
    ensures |mutada| == |poblacion|
    ensures forall j :: 0 <= j < |poblacion| ==>
      |mutada[j]| == |poblacion[j]| && IsPermutationOf(mutada[j], poblacion[j])
  {
    seq(|poblacion|, j requires 0 <= j < |poblacion| => Rotated(poblacion[j], draws[j]))
  }

  /** `GeneticoPermutaciones2.mutacion`; `draws[j]` is the draw for the
      j-th individual. */
  method MutateRotate(poblacion: Population, draws: seq<RotateDraw>) returns (mutada: Population)
    requires |draws| == |poblacion|
    requires forall j :: 0 <= j < |poblacion| ==> ValidRotateDraw(draws[j], |poblacion[j]|)
    ensures mutada == RotatedAll(poblacion, draws)
    ensures |mutada| == |poblacion|
    ensures forall j :: 0 <= j < |poblacion| ==> mutada[j] == Rotated(poblacion[j], draws[j])
  {
    mutada := [];
    var j := 0;
    while j < |poblacion|
      invariant 0 <= j <= |poblacion| && |mutada| == j
      invariant forall m :: 0 <= m < j ==> mutada[m] == Rotated(poblacion[m], draws[m])
    {
      var individuo := InsertMutation(poblacion[j], draws[j]);
      mutada := mutada + [individuo];
      j := j + 1;
    }
  }
}
