/** JavaScript objects used as dictionaries with string keys: an ordered list of
    key/value pairs. Object.keys lists keys in insertion order, and assigning to an
    existing key replaces its value without moving it. */
module Dicts {
  import opened Values

  type Dict<V> = seq<(string, V)>

  predicate HasKey<V>(d: Dict<V>, k: string) {
    exists i :: 0 <= i < |d| && d[i].0 == k
  }

  /** No key occurs twice, as in every JavaScript object. */
  predicate UniqueKeys<V>(d: Dict<V>) {
    forall i, j :: 0 <= i < j < |d| ==> d[i].0 != d[j].0
  }

  function Keys<V>(d: Dict<V>): (ks: seq<string>)
    ensures |ks| == |d| && forall i :: 0 <= i < |d| ==> ks[i] == d[i].0
  {
    if d == [] then [] else [d[0].0] + Keys(d[1..])
  }

  /** The keys of two dictionaries laid end to end. */
  lemma KeysAppend<V>(a: Dict<V>, b: Dict<V>)
    ensures Keys(a + b) == Keys(a) + Keys(b)
  {
  }

  /** Reading `d[k]`: the value stored under `k`, or None when `k` is not a key. */
  function Get<V>(d: Dict<V>, k: string): (r: Option<V>)
    ensures r.None? <==> !HasKey(d, k)
  {
    if d == [] then None
    else if d[0].0 == k then Some(d[0].1)
    else (assert forall i :: 1 <= i < |d| ==> d[i] == d[1..][i - 1]; Get(d[1..], k))
  }

  /** Assigning `d[k] = v`: an existing key keeps its position and gets the new
      value, a new key goes last. */
  function Put<V>(d: Dict<V>, k: string, v: V): Dict<V>
  {
    if d == [] then [(k, v)]
    else if d[0].0 == k then [(k, v)] + d[1..]
    else [d[0]] + Put(d[1..], k, v)
  }

  /** After `d[k] = v`, reading `k` gives `v` and every other key reads as before. */
  lemma {:induction false} PutGet<V>(d: Dict<V>, k: string, v: V, k': string)
    ensures Get(Put(d, k, v), k') == if k' == k then Some(v) else Get(d, k')
  {
    if d != [] && d[0].0 != k {
      PutGet(d[1..], k, v, k');
    }
  }

  /** Assigning to a key not yet present appends it. */
  lemma {:induction false} PutFresh<V>(d: Dict<V>, k: string, v: V)
    requires !HasKey(d, k)
    ensures Put(d, k, v) == d + [(k, v)]
  {
    if d != [] {
      assert !HasKey(d[1..], k) by {
        forall i | 0 <= i < |d[1..]| ensures d[1..][i].0 != k {
          assert d[1..][i] == d[i + 1];
        }
      }
      PutFresh(d[1..], k, v);
    }
  }

  /** Assigning to a key already present keeps the key order. */
  lemma {:induction false} PutKeepsKeys<V>(d: Dict<V>, k: string, v: V)
    requires HasKey(d, k)
    ensures Keys(Put(d, k, v)) == Keys(d)
  {
    if d[0].0 != k {
      var i :| 0 <= i < |d| && d[i].0 == k;
      assert d[1..][i - 1] == d[i];
      PutKeepsKeys(d[1..], k, v);
    }
  }

  /** The keys after an assignment are the old keys, plus `k` at the end if it is new. */
  lemma PutKeys<V>(d: Dict<V>, k: string, v: V)
    ensures Keys(Put(d, k, v)) == if HasKey(d, k) then Keys(d) else Keys(d) + [k]
  {
    if HasKey(d, k) {
      PutKeepsKeys(d, k, v);
    } else {
      PutFresh(d, k, v);
    }
  }

  /** Assignment keeps a dictionary free of duplicate keys. */
  lemma PutUnique<V>(d: Dict<V>, k: string, v: V)
    requires UniqueKeys(d)
    ensures UniqueKeys(Put(d, k, v))
  {
    var d' := Put(d, k, v);
    PutKeys(d, k, v);
    assert forall i :: 0 <= i < |d'| ==> d'[i].0 == Keys(d')[i];
    assert forall i :: 0 <= i < |d| ==> d[i].0 == Keys(d)[i];
  }

  /** Reading a dictionary extended by one pair at the end. */
  lemma {:induction false} GetAppend<V>(d: Dict<V>, k: string, v: V, k': string)
    ensures Get(d + [(k, v)], k') == if HasKey(d, k') then Get(d, k') else if k == k' then Some(v) else None
  {
    if d != [] {
      assert (d + [(k, v)])[1..] == d[1..] + [(k, v)];
      assert HasKey(d, k') <==> d[0].0 == k' || HasKey(d[1..], k') by {
        if HasKey(d, k') && d[0].0 != k' {
          var i :| 0 <= i < |d| && d[i].0 == k';
          assert d[1..][i - 1] == d[i];
        }
        if HasKey(d[1..], k') {
          var i :| 0 <= i < |d[1..]| && d[1..][i].0 == k';
          assert d[i + 1] == d[1..][i];
        }
      }
      GetAppend(d[1..], k, v, k');
    }
  }

  /** Every pair after an assignment is the assigned one or was there before. */
  lemma {:induction false} PutPairs<V>(d: Dict<V>, k: string, v: V)
    ensures forall p :: p in Put(d, k, v) ==> p == (k, v) || p in d
  {
    if d != [] && d[0].0 != k {
      PutPairs(d[1..], k, v);
    }
  }
}
