/**
  Individuals and populations of the permutation genetic algorithm.

  An individual is a sequence of symbols (the n-queens adapter uses the
  columns 0..N-1); a population is an ordered list of individuals.  The
  invariant of the whole algorithm is that every individual stays a
  permutation of one fixed, duplicate-free symbol sequence.
 */
module Individuals {

  type Individual = seq<int>
  type Population = seq<Individual>

  /** No symbol occurs twice. */
  predicate Distinct(s: seq<int>) {
    forall i, j :: 0 <= i < j < |s| ==> s[i] != s[j]
  }

  /** `x` holds exactly the symbols of `symbols`, each as often. */
  predicate IsPermutationOf(x: seq<int>, symbols: seq<int>) {
    multiset(x) == multiset(symbols)
  }

  function Min(a: int, b: int): (m: int)
    ensures m <= a && m <= b && (m == a || m == b)
  {
    if a <= b then a else b
  }

  /** Python's `list.index`: the first position holding `v`. */
  function IndexOf(s: seq<int>, v: int): (i: nat)
    requires v in s
    ensures i < |s| && s[i] == v
    ensures forall j :: 0 <= j < i ==> s[j] != v
  {
    if s[0] == v then 0 else 1 + IndexOf(s[1..], v)
  }

  /** A position inside `s[lo..hi]` puts its symbol in that slice. */
  lemma InSlice(s: seq<int>, lo: nat, hi: nat, q: nat)
    requires lo <= q < hi <= |s|
    ensures s[q] in s[lo..hi]
  {
    assert s[lo..hi][q - lo] == s[q];
  }

  /** In a duplicate-free sequence, a symbol at a position outside
      `[lo, hi)` is not in the slice `s[lo..hi]`. */
  lemma NotInSlice(s: seq<int>, lo: nat, hi: nat, q: nat)
    requires Distinct(s) && lo <= hi <= |s| && q < |s| && !(lo <= q < hi)
    ensures s[q] !in s[lo..hi]
  {
    forall k | 0 <= k < hi - lo ensures s[lo..hi][k] != s[q] {
      assert s[lo..hi][k] == s[lo + k];
    }
  }

  /** A sequence is duplicate-free exactly when no symbol has
      multiplicity above one. */
  lemma {:induction false} DistinctByMultiset(s: seq<int>)
    ensures Distinct(s) <==> forall v :: multiset(s)[v] <= 1
  {
    if s == [] {
    } else {
      var t := s[1..];
      assert s == [s[0]] + t;
      DistinctByMultiset(t);
      if Distinct(s) {
        assert Distinct(t) by {
          forall i, j | 0 <= i < j < |t| ensures t[i] != t[j] {
            assert t[i] == s[i + 1] && t[j] == s[j + 1];
          }
        }
        assert s[0] !in t by {
          forall k | 0 <= k < |t| ensures t[k] != s[0] {
            assert t[k] == s[k + 1];
          }
        }
        forall v ensures multiset(s)[v] <= 1 {
          assert multiset(s)[v] == multiset([s[0]])[v] + multiset(t)[v];
        }
      } else {
        var i, j :| 0 <= i < j < |s| && s[i] == s[j];
        var v := s[i];
        if i == 0 {
          assert v == t[j - 1];
          assert multiset(t)[v] >= 1;
          assert multiset(s)[v] == 1 + multiset(t)[v];
        } else {
          assert t[i - 1] == v && t[j - 1] == v;
          assert !Distinct(t);
          var w :| multiset(t)[w] > 1;
          assert multiset(s)[w] >= multiset(t)[w];
        }
      }
    }
  }

  /** A permutation of a duplicate-free sequence is duplicate-free. */
  lemma PermutationKeepsDistinct(x: seq<int>, symbols: seq<int>)
    requires IsPermutationOf(x, symbols) && Distinct(symbols)
    ensures Distinct(x) && |x| == |symbols|
  {
    assert |x| == |multiset(x)| == |multiset(symbols)| == |symbols|;
    DistinctByMultiset(symbols);
    DistinctByMultiset(x);
  }

  /** Removing position `k` from `y`: what is left is duplicate-free
      when `y` is, and holds every other symbol of `y`. */
  function RemoveAt(y: seq<int>, k: nat): (y': seq<int>)
    requires k < |y|
    ensures |y'| == |y| - 1
    ensures multiset(y) == multiset(y') + multiset{y[k]}
    ensures Distinct(y) ==> Distinct(y')
    ensures forall v :: v in y && v != y[k] ==> v in y'
  {
    assert y == y[..k] + [y[k]] + y[k + 1..];
    RemoveAtDistinct(y, k);
    RemoveAtMembers(y, k);
    y[..k] + y[k + 1..]
  }

  lemma RemoveAtDistinct(y: seq<int>, k: nat)
    requires k < |y|
    ensures Distinct(y) ==> Distinct(y[..k] + y[k + 1..])
  {
    var y' := y[..k] + y[k + 1..];
    if Distinct(y) {
      forall i, j | 0 <= i < j < |y'| ensures y'[i] != y'[j] {
        var i0 := if i < k then i else i + 1;
        var j0 := if j < k then j else j + 1;
        assert y'[i] == y[i0] && y'[j] == y[j0] && i0 < j0;
      }
    }
  }

  lemma RemoveAtMembers(y: seq<int>, k: nat)
    requires k < |y|
    ensures forall v :: v in y && v != y[k] ==> v in y[..k] + y[k + 1..]
  {
    var y' := y[..k] + y[k + 1..];
    forall v | v in y && v != y[k] ensures v in y' {
      var m := IndexOf(y, v);
      if m < k {
        assert y'[m] == y[m];
      } else {
        assert y'[m - 1] == y[m];
      }
    }
  }

  /** Two duplicate-free sequences of equal length, the first drawing its
      symbols from the second, are permutations of each other. */
  lemma {:induction false} DistinctCoverIsPermutation(x: seq<int>, y: seq<int>)
    requires Distinct(x) && Distinct(y) && |x| == |y|
    requires forall i :: 0 <= i < |x| ==> x[i] in y
    ensures IsPermutationOf(x, y)
    decreases |x|
  {
    if x != [] {
      var k := IndexOf(y, x[0]);
      var x', y' := x[1..], RemoveAt(y, k);
      assert Distinct(x') by {
        forall i, j | 0 <= i < j < |x'| ensures x'[i] != x'[j] {
          assert x'[i] == x[i + 1] && x'[j] == x[j + 1];
        }
      }
      forall i | 0 <= i < |x'| ensures x'[i] in y' {
        assert x'[i] == x[i + 1] && x[i + 1] != x[0];
      }
      DistinctCoverIsPermutation(x', y');
      assert x == [x[0]] + x';
      assert multiset(x) == multiset{x[0]} + multiset(x');
    }
  }
}
