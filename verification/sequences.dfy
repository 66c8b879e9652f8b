/**
 LINQ's `FirstOrDefault` stated over sequences, the last-match search that
 `LastIndexOf` performs, and the number of elements held by a map of sequences.
 */
module Sequences {
  import opened Base

  /** `FirstOrDefault(p)` as an index: the position of the first element satisfying `p`, or None. */
  function FirstIndex<T>(s: seq<T>, p: T -> bool): (r: Option<nat>)
    ensures r.Some? ==> r.value < |s| && p(s[r.value])
    ensures r.Some? ==> forall j :: 0 <= j < r.value ==> !p(s[j])
    ensures r.None? <==> forall j :: 0 <= j < |s| ==> !p(s[j])
  {
    if |s| == 0 then None
    else if p(s[0]) then Some(0)
    else
      match FirstIndex(s[1..], p)
      case None => None
      case Some(i) => Some(i + 1)
  }

  /** `FirstOrDefault(p)`: the first element satisfying `p`, or None for `null`. */
  function FirstOrNone<T>(s: seq<T>, p: T -> bool): (r: Option<T>)
    ensures r.Some? ==> exists i :: 0 <= i < |s| && s[i] == r.value && p(r.value)
                                    && forall j :: 0 <= j < i ==> !p(s[j])
    ensures r.None? <==> forall j :: 0 <= j < |s| ==> !p(s[j])
  {
    match FirstIndex(s, p)
    case None => None
    case Some(i) => Some(s[i])
  }

  /** The position of the last element satisfying `p`, or -1 when there is none. */
  function LastIndex<T>(s: seq<T>, p: T -> bool): (r: int)
    ensures -1 <= r < |s|
    ensures r >= 0 ==> p(s[r])
    ensures forall j :: r < j < |s| ==> !p(s[j])
    ensures r == -1 <==> forall j :: 0 <= j < |s| ==> !p(s[j])
  {
    if |s| == 0 then -1
    else if p(s[|s| - 1]) then |s| - 1
    else LastIndex(s[..|s| - 1], p)
  }

  /** The number of elements stored across all the sequences of a map. */
  ghost function TotalSize<K, V>(m: map<K, seq<V>>): nat
    decreases |m|
  {
    if m == map[] then 0
    else
      var k :| k in m;
      |m[k]| + TotalSize(m - {k})
  }

  /** Any key can be taken out first when counting. */
  lemma {:induction false} TotalSizeRemove<K, V>(m: map<K, seq<V>>, k: K)
    requires k in m
    ensures TotalSize(m) == |m[k]| + TotalSize(m - {k})
    decreases |m|
  {
    var k' :| k' in m && TotalSize(m) == |m[k']| + TotalSize(m - {k'});
    if k' != k {
      var rest := m - {k'};
      assert k in rest;
      TotalSizeRemove(rest, k);
      var restK := m - {k};
      assert k' in restK;
      TotalSizeRemove(restK, k');
      assert rest - {k} == restK - {k'};
    }
  }

  /** Extending one sequence of the map (or adding a key bound to a singleton) counts one more element. */
  lemma TotalSizeAppend<K, V>(m: map<K, seq<V>>, k: K, x: V)
    ensures k in m ==> TotalSize(m[k := m[k] + [x]]) == TotalSize(m) + 1
    ensures k !in m ==> TotalSize(m[k := [x]]) == TotalSize(m) + 1
  {
    if k in m {
      var m' := m[k := m[k] + [x]];
      TotalSizeRemove(m', k);
      TotalSizeRemove(m, k);
      assert m' - {k} == m - {k};
    } else {
      var m' := m[k := [x]];
      TotalSizeRemove(m', k);
      assert m' - {k} == m;
    }
  }
}
