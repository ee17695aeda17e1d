/** A JavaScript string-keyed record (a plain object used as a dictionary, or
    a URLSearchParams list), as the ordered list of its entries. Assigning a
    key that is already present overwrites its value in place; a new key is
    appended, so enumeration follows first-insertion order. */
module Records {

  datatype Option<+T> = None | Some(value: T)

  /** Some entry of rec has this key. */
  predicate HasKey<V>(rec: seq<(string, V)>, key: string)
  {
    exists i | 0 <= i < |rec| :: rec[i].0 == key
  }

  /** No key occurs twice: the shape every real JavaScript record has. */
  predicate DistinctKeys<V>(rec: seq<(string, V)>)
  {
    forall i, j | 0 <= i < j < |rec| :: rec[i].0 != rec[j].0
  }

  /** `rec[key]`: the value of the first entry with that key. */
  function Lookup<V>(rec: seq<(string, V)>, key: string): (r: Option<V>)
    ensures r.None? <==> !HasKey(rec, key)
  {
    if rec == [] then None
    else if rec[0].0 == key then Some(rec[0].1)
    else
      assert forall i | 1 <= i < |rec| :: rec[i] == rec[1..][i - 1];
      Lookup(rec[1..], key)
  }

  /** `rec[key] = val`. */
  function Put<V>(rec: seq<(string, V)>, key: string, val: V): (r: seq<(string, V)>)
    ensures Lookup(r, key) == Some(val)
    ensures forall k | k != key :: Lookup(r, k) == Lookup(rec, k)
    ensures HasKey(rec, key) ==> |r| == |rec|
    ensures !HasKey(rec, key) ==> r == rec + [(key, val)]
  {
    if rec == [] then [(key, val)]
    else if rec[0].0 == key then [(key, val)] + rec[1..]
    else
      var tail := Put(rec[1..], key, val);
      assert forall i | 1 <= i < |rec| :: rec[i] == rec[1..][i - 1];
      assert forall i | 1 <= i < |tail| + 1 :: ([rec[0]] + tail)[i] == tail[i - 1];
      [rec[0]] + tail
  }

  /** Assigning a key that is present overwrites its first entry in place:
      the key keeps its position and every other entry stays. */
  lemma {:induction false} PutInPlace<V>(rec: seq<(string, V)>, key: string, val: V)
    requires HasKey(rec, key)
    ensures exists i | 0 <= i < |rec| && rec[i].0 == key :: Put(rec, key, val) == rec[i := (key, val)]
  {
    if rec[0].0 == key {
      assert Put(rec, key, val) == rec[0 := (key, val)];
    } else {
      var tail := Put(rec[1..], key, val);
      assert HasKey(rec[1..], key) by {
        var k :| 0 <= k < |rec| && rec[k].0 == key;
        assert rec[1..][k - 1] == rec[k];
      }
      PutInPlace(rec[1..], key, val);
      var j :| 0 <= j < |rec[1..]| && rec[1..][j].0 == key && tail == rec[1..][j := (key, val)];
      assert Put(rec, key, val) == [rec[0]] + tail;
      assert Put(rec, key, val) == rec[j + 1 := (key, val)];
    }
  }

  /** Assigning a key never introduces a repeated key. */
  lemma {:induction false} PutKeepsDistinct<V>(rec: seq<(string, V)>, key: string, val: V)
    requires DistinctKeys(rec)
    ensures DistinctKeys(Put(rec, key, val))
  {
    if rec != [] && rec[0].0 != key {
      var tail := Put(rec[1..], key, val);
      PutKeepsDistinct(rec[1..], key, val);
      assert Lookup(tail, rec[0].0) == Lookup(rec[1..], rec[0].0);
      assert !HasKey(rec[1..], rec[0].0);
      assert !HasKey(tail, rec[0].0);
      assert Put(rec, key, val) == [rec[0]] + tail;
    }
  }

  /** In a record without repeated keys, every entry is what Lookup finds. */
  lemma {:induction false} LookupEntry<V>(rec: seq<(string, V)>, i: nat)
    requires DistinctKeys(rec) && i < |rec|
    ensures Lookup(rec, rec[i].0) == Some(rec[i].1)
  {
    if i > 0 {
      assert rec[1..][i - 1] == rec[i];
      assert rec[0].0 != rec[i].0;
      LookupEntry(rec[1..], i - 1);
    }
  }

  /** The same, for an entry known only to be somewhere in rec. */
  lemma LookupMember<V>(rec: seq<(string, V)>, e: (string, V))
    requires DistinctKeys(rec) && e in rec
    ensures Lookup(rec, e.0) == Some(e.1)
  {
    var i :| 0 <= i < |rec| && rec[i] == e;
    LookupEntry(rec, i);
  }
}
