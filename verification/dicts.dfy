/**
 * Python dictionaries from string to string, as association lists in insertion order:
 * assigning to an existing key keeps its position, a new key goes at the end.
 */
module Dicts {
  import opened Results
  import opened Text

  type Dict = seq<(String, String)>

  predicate DistinctKeys(d: Dict) {
    forall i, j :: 0 <= i < j < |d| ==> d[i].0 != d[j].0
  }

  /** The position of key `k`. */
  function IndexOf(d: Dict, k: String): (r: Option<nat>)
    ensures r.Some? ==> r.value < |d| && d[r.value].0 == k
    ensures r.Some? ==> forall i :: 0 <= i < r.value ==> d[i].0 != k
    ensures r.None? ==> forall i :: 0 <= i < |d| ==> d[i].0 != k
    decreases |d|
  {
    if |d| == 0 then None
    else if d[0].0 == k then Some(0)
    else match IndexOf(d[1..], k)
      case None => None
      case Some(j) => Some(j + 1)
  }

  /** `d.get(k)`. */
  function Lookup(d: Dict, k: String): (r: Option<String>)
    ensures r.Some? <==> exists i :: 0 <= i < |d| && d[i].0 == k
  {
    match IndexOf(d, k)
    case Some(i) => Some(d[i].1)
    case None => None
  }

  lemma LookupDistinct(d: Dict, k: String, i: nat)
    requires DistinctKeys(d) && i < |d| && d[i].0 == k
    ensures Lookup(d, k) == Some(d[i].1)
  {
  }

  /** `d[k] = v`: an existing key keeps its position and takes the new value, a new key is
      appended at the end. */
  function Put(d: Dict, k: String, v: String): (r: Dict)
    requires DistinctKeys(d)
    ensures DistinctKeys(r)
    ensures Lookup(r, k) == Some(v)
    ensures forall k' :: k' != k ==> Lookup(r, k') == Lookup(d, k')
    ensures Lookup(d, k).Some? ==> |r| == |d| && forall i :: 0 <= i < |d| ==> r[i].0 == d[i].0
    ensures Lookup(d, k).None? ==> r == d + [(k, v)]
  {
    match IndexOf(d, k)
    case Some(i) =>
      var r := d[i := (k, v)];
      assert forall k' :: IndexOf(r, k') == IndexOf(d, k') by {
        forall k' ensures IndexOf(r, k') == IndexOf(d, k') {
          SameKeysIndexOf(d, r, k');
        }
      }
      r
    case None =>
      var r := d + [(k, v)];
      IndexOfAppended(d, k, v);
      assert forall k' :: k' != k ==> IndexOf(r, k') == IndexOf(d, k') by {
        forall k' | k' != k ensures IndexOf(r, k') == IndexOf(d, k') {
          PrefixIndexOf(d, r, k');
        }
      }
      r
  }

  lemma IndexOfAppended(d: Dict, k: String, v: String)
    requires IndexOf(d, k).None?
    ensures IndexOf(d + [(k, v)], k) == Some(|d|)
  {
    var r := d + [(k, v)];
    assert r[|d|].0 == k;
    assert forall i :: 0 <= i < |d| ==> r[i] == d[i];
  }

  lemma {:induction false} SameKeysIndexOf(d: Dict, e: Dict, k: String)
    requires |d| == |e| && forall i :: 0 <= i < |d| ==> d[i].0 == e[i].0
    ensures IndexOf(d, k) == IndexOf(e, k)
    decreases |d|
  {
    if |d| > 0 {
      SameKeysIndexOf(d[1..], e[1..], k);
    }
  }

  lemma {:induction false} PrefixIndexOf(d: Dict, e: Dict, k: String)
    requires |d| <= |e| && forall i :: 0 <= i < |d| ==> d[i] == e[i]
    requires forall i :: |d| <= i < |e| ==> e[i].0 != k
    ensures IndexOf(d, k) == IndexOf(e, k)
    decreases |d|
  {
    if |d| > 0 {
      PrefixIndexOf(d[1..], e[1..], k);
    }
  }
}
