/** A JavaScript plain object used as a dictionary: its own properties in insertion
    order, each key at most once. `Object.keys` reports that order except that keys
    which look like array indices come first, in numeric order; the store only uses
    the key list after sorting it, so the difference never shows. */
module JsObjects {
  import opened Outcomes

  predicate DistinctKeys<V>(o: seq<(string, V)>)
  {
    forall i, j :: 0 <= i < j < |o| ==> o[i].0 != o[j].0
  }

  type Obj<V> = o: seq<(string, V)> | DistinctKeys(o) witness []

  /** `Object.keys(o)`. */
  function Keys<V>(o: seq<(string, V)>): (r: seq<string>)
    ensures |r| == |o|
    ensures forall i :: 0 <= i < |o| ==> r[i] == o[i].0
  {
    seq(|o|, i requires 0 <= i < |o| => o[i].0)
  }

  /** `o[k]`, or `None` for `undefined`. */
  function Get<V>(o: seq<(string, V)>, k: string): (r: Option<V>)
    ensures r.None? <==> k !in Keys(o)
    ensures r.Some? ==> (k, r.value) in o
  {
    if |o| == 0 then None
    else if o[0].0 == k then Some(o[0].1)
    else
      var r := Get(o[1..], k);
      assert Keys(o) == [o[0].0] + Keys(o[1..]);
      r
  }

  /** In an object every entry is what a lookup of its key returns. */
  lemma {:induction false} GetEntry<V>(o: Obj<V>, k: string, v: V)
    requires (k, v) in o
    ensures Get(o, k) == Some(v)
  {
    if o[0] != (k, v) {
      var t := o[1..];
      assert DistinctKeys(t) by {
        forall i, j | 0 <= i < j < |t|
          ensures t[i].0 != t[j].0
        {
          assert t[i] == o[i + 1] && t[j] == o[j + 1];
        }
      }
      var j :| 0 <= j < |o| && o[j] == (k, v);
      assert j > 0;
      assert o[0].0 != k;
      assert t[j - 1] == (k, v);
      GetEntry(t, k, v);
    }
  }

  /** `o[k] = v` for a key already present: the entry keeps its place. */
  function Update<V>(o: Obj<V>, k: string, v: V): (r: Obj<V>)
    ensures Keys(r) == Keys(o)
    ensures k in Keys(o) ==> Get(r, k) == Some(v)
    ensures forall k' :: k' != k ==> Get(r, k') == Get(o, k')
  {
    var r := seq(|o|, i requires 0 <= i < |o| => if o[i].0 == k then (k, v) else o[i]);
    assert forall i :: 0 <= i < |o| ==> r[i].0 == o[i].0;
    assert Keys(r) == Keys(o);
    assert DistinctKeys(r);
    forall k' | k' in Keys(o)
      ensures Get(r, k') == if k' == k then Some(v) else Get(o, k')
    {
      var i :| 0 <= i < |o| && Keys(o)[i] == k';
      GetEntry(r, k', r[i].1);
      GetEntry(o, k', o[i].1);
    }
    r
  }
}
