/** LINQ's `FirstOrDefault(predicate)` on a sequence of reference objects:
    the first element satisfying the predicate, or `null`. */
module Lookup {
  import opened Wrappers

  /** The first element of `s` satisfying `p`, or `None` when none does. */
  function FirstMatch<T>(s: seq<T>, p: T -> bool): (r: Option<T>)
    ensures r.None? <==> forall i :: 0 <= i < |s| ==> !p(s[i])
    ensures r.Some? ==> r.value in s && p(r.value)
  {
    if |s| == 0 then None
    else if p(s[0]) then Some(s[0])
    else
      var r := FirstMatch(s[1..], p);
      assert forall i :: 1 <= i < |s| ==> s[i] == s[1..][i - 1];
      r
  }

  /** The match found is the first one: if `s[i]` satisfies `p` and nothing
      before it does, the search returns `s[i]`. */
  lemma {:induction false} FirstMatchIsFirst<T>(s: seq<T>, p: T -> bool, i: nat)
    requires i < |s| && p(s[i])
    requires forall j :: 0 <= j < i ==> !p(s[j])
    ensures FirstMatch(s, p) == Some(s[i])
  {
    if i > 0 {
      assert forall j :: 0 <= j < i - 1 ==> s[1..][j] == s[j + 1];
      FirstMatchIsFirst(s[1..], p, i - 1);
    }
  }

  /** Elements in front of the search range cannot change a lookup that
      already fails on them; elements after a hit cannot change it at all. */
  lemma {:induction false} FirstMatchConcat<T>(a: seq<T>, b: seq<T>, p: T -> bool)
    ensures FirstMatch(a + b, p) == if FirstMatch(a, p).Some? then FirstMatch(a, p) else FirstMatch(b, p)
  {
    if |a| == 0 {
      assert a + b == b;
    } else if !p(a[0]) {
      assert (a + b)[1..] == a[1..] + b;
      FirstMatchConcat(a[1..], b, p);
    }
  }
}
