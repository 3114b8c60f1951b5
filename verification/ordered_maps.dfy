/**
 Python's insertion-ordered `dict`, as the scheduling code uses it for request
 payloads, per-date slot lists and the slot indexes.

 `keys` lists every key once, in the order it was first inserted; `vals` holds
 the current value of each. Assigning to an existing key keeps its position.
 */
module OrderedMaps {
  import opened Wrappers

  datatype ODict<K(==,!new), V> = ODict(keys: seq<K>, vals: map<K, V>) {

    ghost predicate Valid() {
      && Distinct(keys)
      && (forall k :: k in vals <==> k in keys)
    }
  }

  ghost predicate Distinct<K(!new)>(ks: seq<K>) {
    forall i, j :: 0 <= i < j < |ks| ==> ks[i] != ks[j]
  }

  function Empty<K(==,!new), V>(): (d: ODict<K, V>)
    ensures d.Valid()
    ensures |d.keys| == 0
  {
    ODict([], map[])
  }

  /** `d.get(k)`, with `None` for a missing key. */
  function Lookup<K(==,!new), V>(d: ODict<K, V>, k: K): Option<V> {
    if k in d.vals then Some(d.vals[k]) else None
  }

  /** `d.get(k, default)`. */
  function GetOr<K(==,!new), V>(d: ODict<K, V>, k: K, default: V): V {
    if k in d.vals then d.vals[k] else default
  }

  /** `d[k] = v`. */
  function Put<K(==,!new), V>(d: ODict<K, V>, k: K, v: V): (r: ODict<K, V>)
    requires d.Valid()
    ensures r.Valid()
    ensures Lookup(r, k) == Some(v)
    ensures forall k' :: k' != k ==> Lookup(r, k') == Lookup(d, k')
    ensures k in d.vals ==> r.keys == d.keys
    ensures k !in d.vals ==> r.keys == d.keys + [k]
  {
    ODict(if k in d.vals then d.keys else d.keys + [k], d.vals[k := v])
  }

  /** `d.setdefault(k, []).append(v)`, and equally `d[k].append(v)` on a `defaultdict(list)`. */
  function Append<K(==,!new), V>(d: ODict<K, seq<V>>, k: K, v: V): (r: ODict<K, seq<V>>)
    requires d.Valid()
    ensures r.Valid()
  {
    Put(d, k, GetOr(d, k, []) + [v])
  }

  /** Appends every pair of `kvs`, first to last. */
  function AppendAll<K(==,!new), V>(d: ODict<K, seq<V>>, kvs: seq<(K, V)>): (r: ODict<K, seq<V>>)
    requires d.Valid()
    ensures r.Valid()
    decreases |kvs|
  {
    if |kvs| == 0 then d
    else
      var last := kvs[|kvs| - 1];
      Append(AppendAll(d, kvs[..|kvs| - 1]), last.0, last.1)
  }

  /** The values paired with `k` in `kvs`, in order. */
  function ValuesAt<K(==,!new), V>(kvs: seq<(K, V)>, k: K): seq<V>
    decreases |kvs|
  {
    if |kvs| == 0 then []
    else
      var last := kvs[|kvs| - 1];
      ValuesAt(kvs[..|kvs| - 1], k) + (if last.0 == k then [last.1] else [])
  }

  lemma {:induction false} ValuesAtConcat<K(!new), V>(a: seq<(K, V)>, b: seq<(K, V)>, k: K)
    ensures ValuesAt(a + b, k) == ValuesAt(a, k) + ValuesAt(b, k)
    decreases |b|
  {
    if |b| == 0 {
      assert a + b == a;
    } else {
      assert (a + b)[..|a + b| - 1] == a + b[..|b| - 1];
      ValuesAtConcat(a, b[..|b| - 1], k);
    }
  }

  /** `k` has values in `kvs` exactly when some pair of `kvs` carries it. */
  lemma {:induction false} ValuesAtNonEmpty<K(!new), V>(kvs: seq<(K, V)>, k: K)
    ensures |ValuesAt(kvs, k)| > 0 <==> exists i :: 0 <= i < |kvs| && kvs[i].0 == k
    decreases |kvs|
  {
    if |kvs| > 0 {
      var prefix := kvs[..|kvs| - 1];
      ValuesAtNonEmpty(prefix, k);
      if exists i :: 0 <= i < |kvs| && kvs[i].0 == k {
        var i :| 0 <= i < |kvs| && kvs[i].0 == k;
        if i < |kvs| - 1 {
          assert prefix[i].0 == k;
        }
      }
      if exists i :: 0 <= i < |prefix| && prefix[i].0 == k {
        var i :| 0 <= i < |prefix| && prefix[i].0 == k;
        assert kvs[i].0 == k;
      }
    }
  }

  /** Appending a sequence of pairs extends each key's list by exactly the
      values that pair carries for it, in order, and adds exactly the keys
      it mentions. */
  lemma {:induction false} AppendAllValues<K(!new), V>(d: ODict<K, seq<V>>, kvs: seq<(K, V)>)
    requires d.Valid()
    ensures forall k :: GetOr(AppendAll(d, kvs), k, []) == GetOr(d, k, []) + ValuesAt(kvs, k)
    ensures forall k :: k in AppendAll(d, kvs).vals <==> k in d.vals || |ValuesAt(kvs, k)| > 0
    decreases |kvs|
  {
    if |kvs| > 0 {
      AppendAllValues(d, kvs[..|kvs| - 1]);
    }
  }

  /** Sum of the list lengths stored under the keys `ks`. */
  function SumLengths<K(==,!new), V>(ks: seq<K>, m: map<K, seq<V>>): nat
    decreases |ks|
  {
    if |ks| == 0 then 0
    else
      var k := ks[|ks| - 1];
      SumLengths(ks[..|ks| - 1], m) + (if k in m then |m[k]| else 0)
  }

  /** Number of values stored in a dictionary of lists. */
  function TotalLength<K(==,!new), V>(d: ODict<K, seq<V>>): nat {
    SumLengths(d.keys, d.vals)
  }

  lemma {:induction false} SumLengthsUnaffected<K(!new), V>(ks: seq<K>, m: map<K, seq<V>>, k: K, x: seq<V>)
    requires k !in ks
    ensures SumLengths(ks, m[k := x]) == SumLengths(ks, m)
    decreases |ks|
  {
    if |ks| > 0 {
      SumLengthsUnaffected(ks[..|ks| - 1], m, k, x);
    }
  }

  lemma {:induction false} SumLengthsUpdate<K(!new), V>(ks: seq<K>, m: map<K, seq<V>>, k: K, x: seq<V>)
    requires Distinct(ks) && k in ks && k in m
    ensures SumLengths(ks, m[k := x]) == SumLengths(ks, m) - |m[k]| + |x|
    decreases |ks|
  {
    var prefix := ks[..|ks| - 1];
    if ks[|ks| - 1] == k {
      assert k !in prefix;
      SumLengthsUnaffected(prefix, m, k, x);
    } else {
      assert k in prefix;
      SumLengthsUpdate(prefix, m, k, x);
    }
  }

  /** Every append adds exactly one value, whether or not its key was new. */
  lemma AppendTotal<K(!new), V>(d: ODict<K, seq<V>>, k: K, v: V)
    requires d.Valid()
    ensures TotalLength(Append(d, k, v)) == TotalLength(d) + 1
  {
    var x := GetOr(d, k, []) + [v];
    if k in d.vals {
      SumLengthsUpdate(d.keys, d.vals, k, x);
    } else {
      var ks := d.keys + [k];
      assert ks[..|ks| - 1] == d.keys;
      SumLengthsUnaffected(d.keys, d.vals, k, x);
    }
  }

  /** Appending `n` pairs adds `n` values: nothing is merged or dropped. */
  lemma {:induction false} AppendAllTotal<K(!new), V>(d: ODict<K, seq<V>>, kvs: seq<(K, V)>)
    requires d.Valid()
    ensures TotalLength(AppendAll(d, kvs)) == TotalLength(d) + |kvs|
    decreases |kvs|
  {
    if |kvs| > 0 {
      var prefix := kvs[..|kvs| - 1];
      AppendAllTotal(d, prefix);
      AppendTotal(AppendAll(d, prefix), kvs[|kvs| - 1].0, kvs[|kvs| - 1].1);
    }
  }

  /** Assigns every pair of `kvs`, first to last. */
  function PutAll<K(==,!new), V>(d: ODict<K, V>, kvs: seq<(K, V)>): (r: ODict<K, V>)
    requires d.Valid()
    ensures r.Valid()
    decreases |kvs|
  {
    if |kvs| == 0 then d
    else
      var last := kvs[|kvs| - 1];
      Put(PutAll(d, kvs[..|kvs| - 1]), last.0, last.1)
  }

  /** The value assigned to `k` last in `kvs`, if any. */
  function LastValue<K(==,!new), V>(kvs: seq<(K, V)>, k: K): Option<V>
    decreases |kvs|
  {
    if |kvs| == 0 then None
    else if kvs[|kvs| - 1].0 == k then Some(kvs[|kvs| - 1].1)
    else LastValue(kvs[..|kvs| - 1], k)
  }

  /** After a run of assignments each key holds the value assigned to it
      last, and keys that were never assigned keep their old value. */
  lemma {:induction false} PutAllLast<K(!new), V>(d: ODict<K, V>, kvs: seq<(K, V)>)
    requires d.Valid()
    ensures forall k :: Lookup(PutAll(d, kvs), k) == if LastValue(kvs, k).Some? then LastValue(kvs, k) else Lookup(d, k)
    decreases |kvs|
  {
    if |kvs| > 0 {
      PutAllLast(d, kvs[..|kvs| - 1]);
    }
  }

  /** The value assigned last to a key is the one of its last pair. */
  lemma {:induction false} LastValueAt<K(!new), V>(kvs: seq<(K, V)>, i: nat)
    requires i < |kvs|
    requires forall j :: i < j < |kvs| ==> kvs[j].0 != kvs[i].0
    ensures LastValue(kvs, kvs[i].0) == Some(kvs[i].1)
    decreases |kvs|
  {
    if i < |kvs| - 1 {
      LastValueAt(kvs[..|kvs| - 1], i);
    }
  }

  /** A key is assigned exactly when some pair carries it. */
  lemma {:induction false} LastValueSome<K(!new), V>(kvs: seq<(K, V)>, k: K)
    ensures LastValue(kvs, k).Some? <==> exists i :: 0 <= i < |kvs| && kvs[i].0 == k
    decreases |kvs|
  {
    if |kvs| > 0 {
      var prefix := kvs[..|kvs| - 1];
      LastValueSome(prefix, k);
      if exists i :: 0 <= i < |kvs| && kvs[i].0 == k {
        var i :| 0 <= i < |kvs| && kvs[i].0 == k;
        if i < |prefix| {
          assert prefix[i].0 == k;
        }
      }
      if exists i :: 0 <= i < |prefix| && prefix[i].0 == k {
        var i :| 0 <= i < |prefix| && prefix[i].0 == k;
        assert kvs[i].0 == k;
      }
    }
  }

  /** The key order a run of assignments produces depends only on the keys
      assigned, not on the values. */
  lemma {:induction false} PutAllKeys<K(!new), V, W>(d: ODict<K, V>, e: ODict<K, W>, a: seq<(K, V)>, b: seq<(K, W)>)
    requires d.Valid() && e.Valid() && d.keys == e.keys
    requires |a| == |b| && forall i :: 0 <= i < |a| ==> a[i].0 == b[i].0
    ensures PutAll(d, a).keys == PutAll(e, b).keys
    decreases |a|
  {
    if |a| > 0 {
      PutAllKeys(d, e, a[..|a| - 1], b[..|b| - 1]);
    }
  }

  /** `d.items()`. */
  function Items<K(==,!new), V>(d: ODict<K, V>): (items: seq<(K, V)>)
    requires d.Valid()
    ensures |items| == |d.keys|
    ensures forall i :: 0 <= i < |items| ==> items[i].0 == d.keys[i] && items[i].1 == d.vals[d.keys[i]]
  {
    seq(|d.keys|, i requires 0 <= i < |d.keys| => (d.keys[i], d.vals[d.keys[i]]))
  }
}
