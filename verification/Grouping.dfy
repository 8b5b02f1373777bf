/** Grouping rows by a key before a broadcast. */
module Grouping {
  import opened Prelude

  /** The rows with key `k`, in order. */
  function Bucket<K(==), V>(rows: seq<V>, keyOf: map<V, K>, k: K): seq<V> {
    if rows == [] then
      []
    else
      var n := |rows| - 1;
      Bucket(rows[..n], keyOf, k) + (if rows[n] in keyOf && keyOf[rows[n]] == k then [rows[n]] else [])
  }

  /** The buckets partition the rows: each row is in its own key's bucket, in no other, and once. */
  lemma {:induction false} BucketsPartition<K, V>(rows: seq<V>, keyOf: map<V, K>)
    requires forall r | r in rows :: r in keyOf
    ensures forall r, k :: r in Bucket(rows, keyOf, k) <==> r in rows && keyOf[r] == k
    ensures Distinct(rows) ==> forall k :: Distinct(Bucket(rows, keyOf, k))
  {
    if rows != [] {
      var n := |rows| - 1;
      assert rows == rows[..n] + [rows[n]];
      BucketsPartition(rows[..n], keyOf);
    }
  }

  /** The buckets found so far. */
  ghost predicate Grouped<K(!new), V>(rows: seq<V>, keyOf: map<V, K>, byKey: map<K, seq<V>>) {
    && (forall r | r in rows :: r in keyOf && keyOf[r] in byKey)
    && (forall k | k in byKey :: byKey[k] != [])
    && (forall k :: Bucket(rows, keyOf, k) == if k in byKey then byKey[k] else [])
  }

  lemma GroupOneMore<K(!new), V>(rows: seq<V>, r: V, keyOf: map<V, K>, byKey: map<K, seq<V>>)
    requires Grouped(rows, keyOf, byKey) && r in keyOf
    ensures Grouped(rows + [r], keyOf, byKey[keyOf[r] := (if keyOf[r] in byKey then byKey[keyOf[r]] else []) + [r]])
  {
    assert (rows + [r])[..|rows|] == rows;
  }

  /** `list` is what the broadcast for key `k` carries: its rows, in order, each once, and at least one. */
  ghost predicate BroadcastOf<K, V(!new)>(list: seq<V>, rows: seq<V>, keyOf: map<V, K>, k: K)
    requires forall r | r in rows :: r in keyOf
  {
    && list == Bucket(rows, keyOf, k)
    && list != []
    && (forall r :: r in list <==> r in rows && keyOf[r] == k)
    && (Distinct(rows) ==> Distinct(list))
  }

  lemma GroupIsExact<K(!new), V(!new)>(rows: seq<V>, keyOf: map<V, K>, byKey: map<K, seq<V>>, k: K)
    requires Grouped(rows, keyOf, byKey) && k in byKey
    ensures BroadcastOf(byKey[k], rows, keyOf, k)
  {
    BucketsPartition(rows, keyOf);
    var list := Bucket(rows, keyOf, k);
    assert byKey[k] == list;
    hide Bucket, Grouped;
    assert forall r :: r in list <==> r in rows && keyOf[r] == k;
  }

  /** `list = byKey.get(key) ?? []; list.push(row); byKey.set(key, list)` for every row. */
  method GroupBy<K(==, !new), V(==, !new)>(rows: seq<V>, keyOf: map<V, K>) returns (byKey: map<K, seq<V>>)
    requires forall r | r in rows :: r in keyOf
    ensures forall r | r in rows :: keyOf[r] in byKey
    ensures forall k | k in byKey :: BroadcastOf(byKey[k], rows, keyOf, k)
  {
    byKey := map[];
    assert Grouped([], keyOf, byKey);
    assert rows[..0] == [];
    for i := 0 to |rows|
      invariant Grouped(rows[..i], keyOf, byKey)
    {
      hide Grouped, Bucket;
      assert rows[..i + 1] == rows[..i] + [rows[i]];
      GroupOneMore(rows[..i], rows[i], keyOf, byKey);
      var key := keyOf[rows[i]];
      var list := if key in byKey then byKey[key] else [];
      byKey := byKey[key := list + [rows[i]]];
    }
    assert rows[..|rows|] == rows;
    forall k | k in byKey ensures BroadcastOf(byKey[k], rows, keyOf, k) {
      GroupIsExact(rows, keyOf, byKey, k);
    }
  }
}
