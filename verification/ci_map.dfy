/** `Dictionary<string, decimal>` built with `StringComparer.OrdinalIgnoreCase`,
    as an association list in insertion order. A .NET dictionary that is
    only ever added to enumerates in insertion order, and assigning to an
    existing key keeps the key's original spelling and position and only
    replaces the value. */
module CaseInsensitiveMap {
  import opened Wrappers
  import opened Text

  datatype Entry = Entry(key: string, value: real)

  /** The entries of a dictionary, in enumeration order. */
  type CiMap = seq<Entry>

  /** No two keys are equal ignoring case: the comparer's invariant. */
  predicate KeysDistinct(m: CiMap)
  {
    forall i, j :: 0 <= i < j < |m| ==> !EqualsIgnoreCase(m[i].key, m[j].key)
  }

  /** `TryGetValue(k, out v)`: the value of the entry whose key equals `k`
      ignoring case, that is of the first such entry (with distinct keys
      there is at most one); nothing when no key matches. */
  function Get(m: CiMap, k: string): (r: Option<real>)
    ensures r.None? <==> forall i :: 0 <= i < |m| ==> !EqualsIgnoreCase(m[i].key, k)
    ensures forall i :: FirstKeyAt(m, k, i) ==> r == Some(m[i].value)
  {
    if |m| == 0 then None
    else if EqualsIgnoreCase(m[0].key, k) then Some(m[0].value)
    else
      assert forall i :: 1 <= i < |m| ==> m[i] == m[1..][i - 1];
      Get(m[1..], k)
  }

  /** Lookups cannot tell apart keys that are equal ignoring case. */
  lemma {:induction false} GetIgnoresCase(m: CiMap, a: string, b: string)
    requires EqualsIgnoreCase(a, b)
    ensures Get(m, a) == Get(m, b)
  {
    if |m| > 0 {
      GetIgnoresCase(m[1..], a, b);
    }
  }

  /** `m[i]` is the first entry whose key equals `k` ignoring case. */
  predicate FirstKeyAt(m: CiMap, k: string, i: int)
  {
    && 0 <= i < |m| && EqualsIgnoreCase(m[i].key, k)
    && forall j :: 0 <= j < i ==> !EqualsIgnoreCase(m[j].key, k)
  }

  /** The indexer assignment `m[k] = v`: the first entry whose key equals
      `k` ignoring case keeps its key spelling and position and takes the
      value `v` (`PutUpdatesFirst`); when no key matches, a new entry is
      appended at the end. What lookups then read is `PutReads`. */
  function Put(m: CiMap, k: string, v: real): (r: CiMap)
    ensures |r| == |m| || |r| == |m| + 1
    ensures forall i :: 0 <= i < |m| ==> r[i].key == m[i].key
    ensures |r| == |m| + 1 <==> forall i :: 0 <= i < |m| ==> !EqualsIgnoreCase(m[i].key, k)
    ensures |r| == |m| + 1 ==> r[|m|] == Entry(k, v)
  {
    if |m| == 0 then [Entry(k, v)]
    else if EqualsIgnoreCase(m[0].key, k) then
      [Entry(m[0].key, v)] + m[1..]
    else
      var rest := Put(m[1..], k, v);
      var r := [m[0]] + rest;
      assert forall i :: 1 <= i < |m| ==> r[i] == rest[i - 1] && m[i] == m[1..][i - 1];
      r
  }

  /** Assignment changes one value at most: that of the first entry whose
      key equals `k` ignoring case. */
  lemma {:induction false} PutUpdatesFirst(m: CiMap, k: string, v: real)
    ensures forall i :: 0 <= i < |m| ==> Put(m, k, v)[i].value == if FirstKeyAt(m, k, i) then v else m[i].value
  {
    var r := Put(m, k, v);
    if |m| > 0 && !EqualsIgnoreCase(m[0].key, k) {
      var rest := Put(m[1..], k, v);
      PutUpdatesFirst(m[1..], k, v);
      forall i | 1 <= i < |m|
        ensures r[i].value == if FirstKeyAt(m, k, i) then v else m[i].value
      {
        assert r[i] == rest[i - 1] && m[i] == m[1..][i - 1];
        assert FirstKeyAt(m, k, i) <==> FirstKeyAt(m[1..], k, i - 1) by {
          assert forall j :: 1 <= j < i ==> m[j] == m[1..][j - 1];
        }
      }
    }
  }

  /** After `m[k] = v`, `k` reads `v` and every key not equal to `k`
      ignoring case reads as before. */
  lemma {:induction false} PutReads(m: CiMap, k: string, v: real, k': string)
    ensures Get(Put(m, k, v), k') == if EqualsIgnoreCase(k', k) then Some(v) else Get(m, k')
  {
    var r := Put(m, k, v);
    if |m| == 0 {
      assert r == [Entry(k, v)];
      assert r[1..] == [];
    } else if EqualsIgnoreCase(m[0].key, k) {
      assert r[0] == Entry(m[0].key, v) && r[1..] == m[1..];
    } else {
      PutReads(m[1..], k, v, k');
      assert r[0] == m[0] && r[1..] == Put(m[1..], k, v);
    }
  }

  /** Assignment keeps the comparer's invariant. */
  lemma PutKeepsKeysDistinct(m: CiMap, k: string, v: real)
    requires KeysDistinct(m)
    ensures KeysDistinct(Put(m, k, v))
  {
  }
}
