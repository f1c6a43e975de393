/**
 * `std::map::insert`, which the registries of this project use: inserting a key that is
 * already present leaves the map unchanged, so the first value stored under a key wins.
 */
module MapInsert {

  /** The map after `insert(k, v)`. */
  function Inserted<K, V>(m: map<K, V>, k: K, v: V): (r: map<K, V>)
    ensures k in r && r.Keys == m.Keys + {k}
    ensures k in m ==> r == m
    ensures k !in m ==> r[k] == v && forall j :: j in m ==> r[j] == m[j]
  {
    if k in m then m else m[k := v]
  }

  /** The map after inserting each (key, value) pair of `kvs` in order. */
  function InsertAll<K, V>(m: map<K, V>, kvs: seq<(K, V)>): map<K, V>
    decreases |kvs|
  {
    if |kvs| == 0 then m else InsertAll(Inserted(m, kvs[0].0, kvs[0].1), kvs[1..])
  }

  /** The keys that `kvs` inserts. */
  function KeysOf<K, V>(kvs: seq<(K, V)>): (s: set<K>)
    ensures forall i :: 0 <= i < |kvs| ==> kvs[i].0 in s
    ensures forall k :: k in s ==> exists i :: 0 <= i < |kvs| && kvs[i].0 == k
    decreases |kvs|
  {
    if |kvs| == 0 then {}
    else
      var rest := KeysOf(kvs[1..]);
      assert forall i :: 1 <= i < |kvs| ==> kvs[i] == kvs[1..][i - 1];
      {kvs[0].0} + rest
  }

  /** Index of the first pair of `kvs` with key `k`; `|kvs|` when there is none. */
  function FirstIndex<K(==), V>(kvs: seq<(K, V)>, k: K): (i: nat)
    ensures i <= |kvs|
    ensures i < |kvs| ==> kvs[i].0 == k
    ensures forall j :: 0 <= j < i ==> kvs[j].0 != k
    decreases |kvs|
  {
    if |kvs| == 0 then 0
    else if kvs[0].0 == k then 0
    else 1 + FirstIndex(kvs[1..], k)
  }

  /** After a run of insertions the keys are the old keys plus every inserted key. */
  lemma {:induction false} InsertAllKeys<K, V>(m: map<K, V>, kvs: seq<(K, V)>)
    ensures InsertAll(m, kvs).Keys == m.Keys + KeysOf(kvs)
    decreases |kvs|
  {
    if |kvs| > 0 {
      InsertAllKeys(Inserted(m, kvs[0].0, kvs[0].1), kvs[1..]);
    }
  }

  /**
   * First insertion wins: after a run of insertions, a key already present keeps its value,
   * and a new key maps to the value of its first insertion.
   */
  lemma {:induction false} FirstInsertionWins<K, V>(m: map<K, V>, kvs: seq<(K, V)>, k: K)
    ensures k in m ==> k in InsertAll(m, kvs) && InsertAll(m, kvs)[k] == m[k]
    ensures k !in m && FirstIndex(kvs, k) < |kvs| ==>
              k in InsertAll(m, kvs) && InsertAll(m, kvs)[k] == kvs[FirstIndex(kvs, k)].1
    ensures k !in m && FirstIndex(kvs, k) == |kvs| ==> k !in InsertAll(m, kvs)
    decreases |kvs|
  {
    if |kvs| > 0 {
      var m' := Inserted(m, kvs[0].0, kvs[0].1);
      FirstInsertionWins(m', kvs[1..], k);
      if kvs[0].0 != k && k !in m {
        var i := FirstIndex(kvs[1..], k);
        assert FirstIndex(kvs, k) == 1 + i;
        if i < |kvs[1..]| {
          assert kvs[1..][i] == kvs[1 + i];
        }
      }
    }
  }
}
