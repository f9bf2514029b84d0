/**
 * Python's insertion-ordered `dict` with string keys, as an association list.
 * `Put` is `d[k] = v`: it replaces the value of an existing key in place and
 * appends a new key at the end, so key order is first-insertion order.
 */
module Dicts {
  import opened Wrappers

  type Dict<V> = seq<(string, V)>

  /** The keys in iteration order. */
  function Names<V>(d: Dict<V>): (ns: seq<string>)
    ensures |ns| == |d|
    ensures forall i :: 0 <= i < |d| ==> ns[i] == d[i].0
  {
    seq(|d|, i requires 0 <= i < |d| => d[i].0)
  }

  function Keys<V>(d: Dict<V>): set<string>
  {
    if |d| == 0 then {} else {d[0].0} + Keys(d[1..])
  }

  /** A key is in the dict exactly when some position holds it. */
  lemma {:induction false} KeysAt<V>(d: Dict<V>, k: string)
    ensures k in Keys(d) <==> exists i :: 0 <= i < |d| && d[i].0 == k
  {
    if |d| > 0 {
      KeysAt(d[1..], k);
      if k in Keys(d[1..]) {
        var i :| 0 <= i < |d[1..]| && d[1..][i].0 == k;
        assert d[i + 1].0 == k;
      }
      if exists i :: 0 <= i < |d| && d[i].0 == k {
        var i :| 0 <= i < |d| && d[i].0 == k;
        if i > 0 { assert d[1..][i - 1].0 == k; }
      }
    }
  }

  /** Every Python dict has pairwise distinct keys. */
  predicate Distinct<V>(d: Dict<V>)
  {
    forall i, j :: 0 <= i < j < |d| ==> d[i].0 != d[j].0
  }

  lemma DistinctTail<V>(d: Dict<V>)
    requires Distinct(d) && |d| > 0
    ensures Distinct(d[1..]) && d[0].0 !in Keys(d[1..])
  {
    forall a, b | 0 <= a < b < |d[1..]| ensures d[1..][a].0 != d[1..][b].0 {
      assert d[1..][a] == d[a + 1] && d[1..][b] == d[b + 1];
    }
    forall i | 0 <= i < |d[1..]| ensures d[1..][i].0 != d[0].0 {
      assert d[1..][i] == d[i + 1];
    }
    KeysAt(d[1..], d[0].0);
  }

  /** `d.get(k)`: the value stored under `k`, if any. */
  function Get<V>(d: Dict<V>, k: string): (r: Option<V>)
    ensures r.None? <==> k !in Keys(d)
  {
    if |d| == 0 then None
    else if d[0].0 == k then Some(d[0].1)
    else Get(d[1..], k)
  }

  /** In a dict with distinct keys, looking up the key at position `i` finds the value at position `i`. */
  lemma {:induction false} GetAt<V>(d: Dict<V>, i: nat)
    requires Distinct(d) && i < |d|
    ensures Get(d, d[i].0) == Some(d[i].1)
  {
    if i > 0 {
      DistinctTail(d);
      GetAt(d[1..], i - 1);
      assert d[1..][i - 1] == d[i];
    }
  }

  /** `d[k] = v` */
  function Put<V>(d: Dict<V>, k: string, v: V): (r: Dict<V>)
    ensures Keys(r) == Keys(d) + {k}
    ensures k in Keys(d) ==> Names(r) == Names(d)
    ensures k !in Keys(d) ==> r == d + [(k, v)]
  {
    if |d| == 0 then
      var r := [(k, v)];
      assert r[1..] == [];
      r
    else if d[0].0 == k then
      var r := [(k, v)] + d[1..];
      assert r[1..] == d[1..];
      r
    else
      var rest := Put(d[1..], k, v);
      var r := [d[0]] + rest;
      assert r[1..] == rest;
      assert d == [d[0]] + d[1..];
      r
  }

  /** The value just stored is found, and every other key keeps its value. */
  lemma {:induction false} PutGet<V>(d: Dict<V>, k: string, v: V, k': string)
    ensures Get(Put(d, k, v), k') == if k' == k then Some(v) else Get(d, k')
  {
    if |d| > 0 && d[0].0 != k {
      PutGet(d[1..], k, v, k');
      var r := Put(d, k, v);
      assert r[0] == d[0] && r[1..] == Put(d[1..], k, v);
    } else if |d| > 0 {
      var r := Put(d, k, v);
      assert r[0] == (k, v) && r[1..] == d[1..];
    }
  }

  /** Assigning to the key at position `i` of a dict replaces the value there and moves nothing. */
  lemma {:induction false} PutAt<V>(d: Dict<V>, i: nat, v: V)
    requires Distinct(d) && i < |d|
    ensures Put(d, d[i].0, v) == d[i := (d[i].0, v)]
  {
    var k := d[i].0;
    if i == 0 {
      assert Put(d, k, v) == [(k, v)] + d[1..];
      assert d[i := (k, v)] == [(k, v)] + d[1..];
    } else {
      assert d[0].0 != k;
      assert Put(d, k, v) == [d[0]] + Put(d[1..], k, v);
      DistinctTail(d);
      assert d[1..][i - 1] == d[i];
      PutAt(d[1..], i - 1, v);
      assert d[i := (k, v)] == [d[0]] + d[1..][i - 1 := (k, v)];
    }
  }

  /** Assignment keeps the keys of a dict distinct. */
  lemma PutDistinct<V>(d: Dict<V>, k: string, v: V)
    requires Distinct(d)
    ensures Distinct(Put(d, k, v))
  {
    var r := Put(d, k, v);
    if k in Keys(d) {
      assert Names(r) == Names(d);
      forall i, j | 0 <= i < j < |r| ensures r[i].0 != r[j].0 {
        assert Names(r)[i] == Names(d)[i] && Names(r)[j] == Names(d)[j];
      }
    } else {
      KeysAt(d, k);
      forall i, j | 0 <= i < j < |r| ensures r[i].0 != r[j].0 {
        if j == |d| { assert r[i] == d[i]; }
      }
    }
  }

  /** `min(a, b)`: `zip` stops at the shorter of its arguments. */
  function Min(a: nat, b: nat): nat
  {
    if a <= b then a else b
  }

  /** `dict(zip(keys[:n], vals[:n]))`, built by assigning the pairs in order. */
  function ZipPrefix<V>(keys: seq<string>, vals: seq<V>, n: nat): (r: Dict<V>)
    requires n <= |keys| && n <= |vals|
    ensures Distinct(r)
    decreases n
  {
    if n == 0 then []
    else
      var prev := ZipPrefix(keys, vals, n - 1);
      PutDistinct(prev, keys[n - 1], vals[n - 1]);
      Put(prev, keys[n - 1], vals[n - 1])
  }

  /** `dict(zip(keys, vals))` */
  function Zip<V>(keys: seq<string>, vals: seq<V>): (r: Dict<V>)
    ensures Distinct(r)
  {
    ZipPrefix(keys, vals, Min(|keys|, |vals|))
  }

  /** The record has a key exactly for each of the first `n` column names. */
  lemma {:induction false} ZipPrefixKeys<V>(keys: seq<string>, vals: seq<V>, n: nat, k: string)
    requires n <= |keys| && n <= |vals|
    ensures k in Keys(ZipPrefix(keys, vals, n)) <==> exists i :: 0 <= i < n && keys[i] == k
    decreases n
  {
    if n > 0 {
      ZipPrefixKeys(keys, vals, n - 1, k);
    }
  }

  /** A key that does not occur again later in the first `n` positions holds the value paired with it. */
  lemma {:induction false} ZipPrefixLastWins<V>(keys: seq<string>, vals: seq<V>, n: nat, i: nat)
    requires n <= |keys| && n <= |vals| && i < n
    requires forall j :: i < j < n ==> keys[j] != keys[i]
    ensures Get(ZipPrefix(keys, vals, n), keys[i]) == Some(vals[i])
    decreases n
  {
    var prev := ZipPrefix(keys, vals, n - 1);
    PutGet(prev, keys[n - 1], vals[n - 1], keys[i]);
    if i < n - 1 {
      ZipPrefixLastWins(keys, vals, n - 1, i);
    }
  }

  /** The record's keys are exactly the column names `zip` pairs with a value. */
  lemma ZipKeys<V>(keys: seq<string>, vals: seq<V>, k: string)
    ensures k in Keys(Zip(keys, vals)) <==> exists i :: 0 <= i < |keys| && i < |vals| && keys[i] == k
  {
    ZipPrefixKeys(keys, vals, Min(|keys|, |vals|), k);
  }

  /**
   * Pairing is by position and a later duplicate overwrites an earlier one:
   * the value for a key is the one paired with its LAST occurrence.
   */
  lemma ZipLastWins<V>(keys: seq<string>, vals: seq<V>, i: nat)
    requires i < |keys| && i < |vals|
    requires forall j :: i < j < |keys| && j < |vals| ==> keys[j] != keys[i]
    ensures Get(Zip(keys, vals), keys[i]) == Some(vals[i])
  {
    ZipPrefixLastWins(keys, vals, Min(|keys|, |vals|), i);
  }

  /** With distinct column names, the record is exactly the pairs in column order. */
  lemma {:induction false} ZipPrefixOfDistinct<V>(keys: seq<string>, vals: seq<V>, n: nat)
    requires n <= |keys| && n <= |vals|
    requires forall a, b :: 0 <= a < b < n ==> keys[a] != keys[b]
    ensures ZipPrefix(keys, vals, n) == seq(n, i requires 0 <= i < n => (keys[i], vals[i]))
    decreases n
  {
    if n > 0 {
      ZipPrefixOfDistinct(keys, vals, n - 1);
      var prev := ZipPrefix(keys, vals, n - 1);
      KeysAt(prev, keys[n - 1]);
      assert keys[n - 1] !in Keys(prev);
      assert seq(n, i requires 0 <= i < n => (keys[i], vals[i]))
          == seq(n - 1, i requires 0 <= i < n - 1 => (keys[i], vals[i])) + [(keys[n - 1], vals[n - 1])];
    }
  }

  lemma ZipOfDistinct<V>(keys: seq<string>, vals: seq<V>)
    requires |keys| == |vals|
    requires forall a, b :: 0 <= a < b < |keys| ==> keys[a] != keys[b]
    ensures Zip(keys, vals) == seq(|keys|, i requires 0 <= i < |keys| => (keys[i], vals[i]))
  {
    ZipPrefixOfDistinct(keys, vals, |keys|);
  }
}
