/** Python's `dict`: a map that remembers insertion order. Assigning to a key
    that is already present replaces its value in place; a new key goes last.
    Iteration (`.items()`, `.values()`) follows that order. */
module Dicts {
  import opened Wrappers

  type Dict<K, V> = seq<(K, V)>

  function KeysOf<K, V>(d: Dict<K, V>): (r: seq<K>)
    ensures |r| == |d| && forall i :: 0 <= i < |d| ==> r[i] == d[i].0
  {
    seq(|d|, i requires 0 <= i < |d| => d[i].0)
  }

  function ValuesOf<K, V>(d: Dict<K, V>): (r: seq<V>)
    ensures |r| == |d| && forall i :: 0 <= i < |d| ==> r[i] == d[i].1
  {
    seq(|d|, i requires 0 <= i < |d| => d[i].1)
  }

  predicate DistinctKeys<K(==,!new), V>(d: Dict<K, V>) {
    forall i, j :: 0 <= i < j < |d| ==> d[i].0 != d[j].0
  }

  predicate HasKey<K(==,!new), V>(d: Dict<K, V>, k: K) {
    exists i :: 0 <= i < |d| && d[i].0 == k
  }

  /** The key view holds exactly the keys the dict has, and lists each once
      when the dict's keys are distinct. */
  lemma KeysOfMembership<K(!new), V>(d: Dict<K, V>, k: K)
    ensures k in KeysOf(d) <==> HasKey(d, k)
    ensures DistinctKeys(d) ==> forall i, j :: 0 <= i < j < |d| ==> KeysOf(d)[i] != KeysOf(d)[j]
  {
    if k in KeysOf(d) {
      var i :| 0 <= i < |KeysOf(d)| && KeysOf(d)[i] == k;
      assert d[i].0 == k;
    }
  }

  /** The value `d.get(k)` finds is one of the values the view lists. */
  lemma ValuesOfGet<K(!new), V>(d: Dict<K, V>, k: K)
    ensures Get(d, k).Some? ==> Get(d, k).value in ValuesOf(d)
  {
    if Get(d, k).Some? {
      var i :| 0 <= i < |d| && d[i] == (k, Get(d, k).value);
      assert ValuesOf(d)[i] == Get(d, k).value;
    }
  }

  /** `d.get(k)`: the value of the first entry for `k`. */
  function Get<K(==,!new), V>(d: Dict<K, V>, k: K): (r: Option<V>)
    ensures r.None? <==> !HasKey(d, k)
    ensures r.Some? ==> exists i :: 0 <= i < |d| && d[i] == (k, r.value)
  {
    if d == [] then None
    else if d[0].0 == k then Some(d[0].1)
    else
      var r := Get(d[1..], k);
      assert HasKey(d, k) ==> HasKey(d[1..], k) by {
        if HasKey(d, k) {
          var i :| 0 <= i < |d| && d[i].0 == k;
          assert d[1..][i - 1].0 == k;
        }
      }
      assert r.Some? ==> exists i :: 0 <= i < |d| && d[i] == (k, r.value) by {
        if r.Some? {
          var i :| 0 <= i < |d[1..]| && d[1..][i] == (k, r.value);
          assert d[i + 1] == (k, r.value);
        }
      }
      r
  }

  /** `d[k] = v`. */
  function Put<K(==,!new), V>(d: Dict<K, V>, k: K, v: V): (r: Dict<K, V>)
    ensures Get(r, k) == Some(v)
    ensures forall k' :: k' != k ==> Get(r, k') == Get(d, k')
  {
    if d == [] then [(k, v)]
    else if d[0].0 == k then [(k, v)] + d[1..]
    else [d[0]] + Put(d[1..], k, v)
  }

  lemma HasKeyTail<K(!new), V>(d: Dict<K, V>, k: K)
    requires |d| > 0 && d[0].0 != k
    ensures HasKey(d, k) <==> HasKey(d[1..], k)
  {
    if HasKey(d, k) {
      var i :| 0 <= i < |d| && d[i].0 == k;
      assert d[1..][i - 1].0 == k;
    }
    if HasKey(d[1..], k) {
      var i :| 0 <= i < |d[1..]| && d[1..][i].0 == k;
      assert d[i + 1].0 == k;
    }
  }

  lemma {:induction false} PutPresent<K(!new), V>(d: Dict<K, V>, k: K, v: V)
    requires HasKey(d, k)
    ensures |Put(d, k, v)| == |d| && forall i :: 0 <= i < |d| ==> Put(d, k, v)[i].0 == d[i].0
  {
    if d[0].0 != k {
      HasKeyTail(d, k);
      PutPresent(d[1..], k, v);
      var p := Put(d[1..], k, v);
      assert Put(d, k, v) == [d[0]] + p;
      forall i | 0 < i < |d| ensures Put(d, k, v)[i].0 == d[i].0 {
        assert Put(d, k, v)[i] == p[i - 1];
        assert d[i] == d[1..][i - 1];
      }
    }
  }

  lemma {:induction false} PutAbsent<K(!new), V>(d: Dict<K, V>, k: K, v: V)
    requires !HasKey(d, k)
    ensures Put(d, k, v) == d + [(k, v)]
  {
    if d != [] {
      assert d[0].0 != k;
      HasKeyTail(d, k);
      PutAbsent(d[1..], k, v);
      assert d == [d[0]] + d[1..];
    }
  }

  /** Overwriting keeps every key where it was; a new key is appended. */
  lemma PutShape<K(!new), V>(d: Dict<K, V>, k: K, v: V)
    ensures HasKey(d, k) ==> KeysOf(Put(d, k, v)) == KeysOf(d)
    ensures !HasKey(d, k) ==> Put(d, k, v) == d + [(k, v)]
  {
    if HasKey(d, k) {
      PutPresent(d, k, v);
    } else {
      PutAbsent(d, k, v);
    }
  }

  /** Every key after `d[k] = v` is `k` or was already a key. */
  lemma {:induction false} PutKeys<K(!new), V>(d: Dict<K, V>, k: K, v: V)
    ensures forall j :: 0 <= j < |Put(d, k, v)| ==> Put(d, k, v)[j].0 == k || HasKey(d, Put(d, k, v)[j].0)
  {
    if d == [] {
    } else if d[0].0 == k {
      var r := Put(d, k, v);
      forall j | 0 <= j < |r| ensures r[j].0 == k || HasKey(d, r[j].0) {
        if j > 0 {
          assert r[j] == d[j];
        }
      }
    } else {
      var r := Put(d, k, v);
      var rest := Put(d[1..], k, v);
      PutKeys(d[1..], k, v);
      forall j | 0 <= j < |r| ensures r[j].0 == k || HasKey(d, r[j].0) {
        if j == 0 {
          assert d[0].0 == r[0].0;
        } else if rest[j - 1].0 != k {
          assert HasKey(d[1..], rest[j - 1].0);
          var i :| 0 <= i < |d[1..]| && d[1..][i].0 == rest[j - 1].0;
          assert d[i + 1].0 == r[j].0;
        }
      }
    }
  }

  lemma {:induction false} PutDistinct<K(!new), V>(d: Dict<K, V>, k: K, v: V)
    requires DistinctKeys(d)
    ensures DistinctKeys(Put(d, k, v))
  {
    if d == [] {
    } else if d[0].0 == k {
    } else {
      var rest := Put(d[1..], k, v);
      PutDistinct(d[1..], k, v);
      PutKeys(d[1..], k, v);
      forall j | 0 <= j < |rest| ensures rest[j].0 != d[0].0 {
        if rest[j].0 != k {
          var i :| 0 <= i < |d[1..]| && d[1..][i].0 == rest[j].0;
          assert d[i + 1].0 == rest[j].0;
        }
      }
    }
  }

  /** With distinct keys, looking a key up can start from the last entry. */
  lemma {:induction false} GetLast<K(!new), V>(d: Dict<K, V>, k: K)
    requires |d| > 0 && DistinctKeys(d)
    ensures Get(d, k) == if d[|d| - 1].0 == k then Some(d[|d| - 1].1) else Get(d[..|d| - 1], k)
  {
    if |d| > 1 {
      assert d[1..][..|d[1..]| - 1] == d[..|d| - 1][1..];
      GetLast(d[1..], k);
      if d[0].0 == k {
        assert d[|d| - 1].0 != k;
      }
    }
  }

  /** With distinct keys, the last key does not occur before it. */
  lemma LastKeyFresh<K(!new), V>(d: Dict<K, V>)
    requires |d| > 0 && DistinctKeys(d)
    ensures Get(d[..|d| - 1], d[|d| - 1].0).None?
  {
    var prefix := d[..|d| - 1];
    assert forall i :: 0 <= i < |prefix| ==> prefix[i].0 != d[|d| - 1].0;
  }
}
