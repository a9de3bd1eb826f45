/** Python dictionaries as far as their order matters: a list of entries in insertion order.
    Storing under an existing key keeps the entry's place. */
module OrderedMap {
  import opened Wire

  datatype Entry<V> = Entry(key: string, value: V)

  ghost predicate DistinctKeys<V>(m: seq<Entry<V>>) {
    forall i, j :: 0 <= i < j < |m| ==> m[i].key != m[j].key
  }

  /** The place of a key, or |m|. */
  function IndexOf<V>(m: seq<Entry<V>>, k: string): (i: nat)
    ensures i <= |m|
    ensures i < |m| ==> m[i].key == k
    ensures forall j :: 0 <= j < i ==> m[j].key != k
  {
    if m == [] || m[0].key == k then 0 else 1 + IndexOf(m[1..], k)
  }

  predicate Has<V>(m: seq<Entry<V>>, k: string) {
    IndexOf(m, k) < |m|
  }

  function Get<V>(m: seq<Entry<V>>, k: string): Option<V> {
    var i := IndexOf(m, k);
    if i < |m| then Some(m[i].value) else None
  }

  function Put<V>(m: seq<Entry<V>>, k: string, v: V): seq<Entry<V>> {
    var i := IndexOf(m, k);
    if i < |m| then m[i := Entry(k, v)] else m + [Entry(k, v)]
  }

  function Remove<V>(m: seq<Entry<V>>, k: string): seq<Entry<V>> {
    var i := IndexOf(m, k);
    if i < |m| then m[..i] + m[i + 1..] else m
  }

  /** Drop the oldest entries beyond the capacity. */
  function Trim<V>(m: seq<Entry<V>>, cap: nat): seq<Entry<V>> {
    if |m| > cap then m[|m| - cap..] else m
  }

  /** Where keys are distinct an entry determines its place. */
  lemma IndexIs<V>(m: seq<Entry<V>>, i: nat)
    requires DistinctKeys(m) && i < |m|
    ensures IndexOf(m, m[i].key) == i
  {
    var j := IndexOf(m, m[i].key);
    assert j <= i && m[j].key == m[i].key;
  }

  lemma PutGet<V>(m: seq<Entry<V>>, k: string, v: V, x: string)
    requires DistinctKeys(m)
    ensures DistinctKeys(Put(m, k, v))
    ensures Get(Put(m, k, v), x) == if x == k then Some(v) else Get(m, x)
  {
    var i, m' := IndexOf(m, k), Put(m, k, v);
    assert forall j :: 0 <= j < |m| ==> m'[j].key == m[j].key;
    IndexIs(m', i);
    var p := IndexOf(m, x);
    if x != k && p < |m| {
      IndexIs(m', p);
    }
  }

  lemma RemoveDistinct<V>(m: seq<Entry<V>>, k: string)
    requires DistinctKeys(m)
    ensures DistinctKeys(Remove(m, k)) && !Has(Remove(m, k), k)
  {
    var i, m' := IndexOf(m, k), Remove(m, k);
    if i < |m| {
      assert forall j :: 0 <= j < |m'| ==> m'[j] == m[if j < i then j else j + 1];
    }
  }

  lemma RemoveGet<V>(m: seq<Entry<V>>, k: string, x: string)
    requires DistinctKeys(m)
    ensures Get(Remove(m, k), x) == if x == k then None else Get(m, x)
  {
    RemoveDistinct(m, k);
    if x != k {
      RemoveOthers(m, k, x);
    }
  }

  lemma RemoveOthers<V>(m: seq<Entry<V>>, k: string, x: string)
    requires DistinctKeys(m) && DistinctKeys(Remove(m, k)) && x != k
    ensures Get(Remove(m, k), x) == Get(m, x)
  {
    var i, m', p := IndexOf(m, k), Remove(m, k), IndexOf(m, x);
    if i < |m| && p < |m| {
      var p' := if p < i then p else p - 1;
      assert m'[p'] == m[p];
      IndexIs(m', p');
    } else if i < |m| {
      assert forall j :: 0 <= j < |m'| ==> m'[j] == m[if j < i then j else j + 1];
    }
  }

  /** Trimming keeps the newest entries: a key survives unless its entry is among the oldest. */
  lemma TrimGet<V>(m: seq<Entry<V>>, cap: nat, x: string)
    requires DistinctKeys(m)
    ensures DistinctKeys(Trim(m, cap)) && |Trim(m, cap)| <= cap
    ensures Get(Trim(m, cap), x) == if IndexOf(m, x) + cap < |m| then None else Get(m, x)
  {
    if |m| > cap {
      var n, m' := |m| - cap, Trim(m, cap);
      assert forall j :: 0 <= j < |m'| ==> m'[j] == m[j + n];
      var p := IndexOf(m, x);
      if n <= p < |m| {
        IndexIs(m', p - n);
      }
    }
  }
}
