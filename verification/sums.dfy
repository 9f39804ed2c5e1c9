/** Sums of real-valued terms over sequences, as LINQ's `Sum` and the `foreach`
    accumulators of the cost calculator compute them. Money is exact here, so
    the order of summation does not matter; the lemmas below prove it. */
module Sums {

  /** The sum of `term(x)` over the elements `x` of `s`, left to right. */
  function Sum<T>(s: seq<T>, term: T -> real): real
  {
    if |s| == 0 then 0.0 else term(s[0]) + Sum(s[1..], term)
  }

  /** The sum of a two-element sequence. */
  lemma SumPair<T>(a: T, b: T, term: T -> real)
    ensures Sum([a, b], term) == term(a) + term(b)
  {
    assert [a, b][1..] == [b];
    assert [b][1..] == [];
    assert Sum([b], term) == term(b) + Sum([], term);
  }

  /** Summing a concatenation is summing the parts. */
  lemma {:induction false} SumConcat<T>(a: seq<T>, b: seq<T>, term: T -> real)
    ensures Sum(a + b, term) == Sum(a, term) + Sum(b, term)
  {
    if |a| == 0 {
      assert a + b == b;
    } else {
      assert (a + b)[1..] == a[1..] + b;
      SumConcat(a[1..], b, term);
    }
  }

  /** Dropping one element removes exactly its term from the sum. */
  lemma SumRemove<T>(s: seq<T>, j: nat, term: T -> real)
    requires j < |s|
    ensures Sum(s, term) == Sum(s[..j] + s[j+1..], term) + term(s[j])
  {
    assert s == s[..j] + ([s[j]] + s[j+1..]);
    SumConcat(s[..j], [s[j]] + s[j+1..], term);
    assert ([s[j]] + s[j+1..])[1..] == s[j+1..];
    SumConcat(s[..j], s[j+1..], term);
  }

  /** Removing the element at `j` removes one occurrence of it from the multiset. */
  lemma MultisetRemove<T>(s: seq<T>, j: nat)
    requires j < |s|
    ensures multiset(s[..j] + s[j+1..]) == multiset(s) - multiset{s[j]}
  {
    assert s == s[..j] + [s[j]] + s[j+1..];
    assert multiset(s) == multiset(s[..j]) + multiset{s[j]} + multiset(s[j+1..]);
  }

  /** The sum does not depend on the order of the elements: any permutation
      of the sequence (equal multisets) has the same sum. */
  lemma {:induction false} SumPermutation<T>(a: seq<T>, b: seq<T>, term: T -> real)
    requires multiset(a) == multiset(b)
    ensures Sum(a, term) == Sum(b, term)
  {
    if |a| == 0 {
      assert |b| == |multiset(b)| == 0;
    } else {
      var j := IndexOf(b, a[0]);
      var rest := b[..j] + b[j+1..];
      assert multiset(a[1..]) == multiset(a) - multiset{a[0]} by {
        MultisetRemove(a, 0);
        assert a[..0] + a[1..] == a[1..];
      }
      assert multiset(rest) == multiset(b) - multiset{a[0]} by {
        MultisetRemove(b, j);
      }
      SumPermutation(a[1..], rest, term);
      SumRemove(b, j, term);
    }
  }

  /** A position at which an element of the multiset occurs. */
  lemma IndexOf<T>(s: seq<T>, x: T) returns (j: nat)
    requires x in multiset(s)
    ensures j < |s| && s[j] == x
  {
    assert x in s;
    j :| 0 <= j < |s| && s[j] == x;
  }

  /** Terms that agree element by element give equal sums. */
  lemma {:induction false} SumCongruent<T>(s: seq<T>, f: T -> real, g: T -> real)
    requires forall i :: 0 <= i < |s| ==> f(s[i]) == g(s[i])
    ensures Sum(s, f) == Sum(s, g)
  {
    if |s| > 0 {
      SumCongruent(s[1..], f, g);
    }
  }

  /** A sum of non-negative terms is non-negative. */
  lemma {:induction false} SumNonNegative<T>(s: seq<T>, term: T -> real)
    requires forall i :: 0 <= i < |s| ==> term(s[i]) >= 0.0
    ensures Sum(s, term) >= 0.0
  {
    if |s| > 0 {
      SumNonNegative(s[1..], term);
    }
  }
}
