/**
 * `SELECT ... WHERE ... ORDER BY key ASC LIMIT n`.
 *
 * The WHERE clause and the sort key together are a map from the eligible ids to their
 * keys. Rows with equal keys come back in an order of the database's choosing, so a page
 * is a relation and not a function. A descending order uses negated keys.
 */
module Query {
  import opened Prelude

  ghost predicate Page<T>(rows: seq<T>, key: map<T, int>, limit: nat) {
    && Distinct(rows)
    && |rows| == (if |key| < limit then |key| else limit)
    && (forall r | r in rows :: r in key)
    && (forall i, j | 0 <= i < j < |rows| :: key[rows[i]] <= key[rows[j]])
    && (forall r, x | r in rows && x in key && x !in rows :: key[r] <= key[x])
  }

  /** The database's side of the contract: picks the least remaining row until the page is full. */
  method Fetch<T(==)>(key: map<T, int>, limit: nat) returns (rows: seq<T>)
    ensures Page(rows, key, limit)
  {
    rows := [];
    var rest := key.Keys;
    while |rows| < limit && rest != {}
      invariant rest <= key.Keys && |rows| <= limit && |rows| + |rest| == |key.Keys|
      invariant forall r | r in rows :: r in key && r !in rest
      invariant forall x | x in key && x !in rows :: x in rest
      invariant Distinct(rows)
      invariant forall i, j | 0 <= i < j < |rows| :: key[rows[i]] <= key[rows[j]]
      invariant forall r, x | r in rows && x in rest :: key[r] <= key[x]
      decreases rest
    {
      var least := Least(key, rest);
      rows, rest := rows + [least], rest - {least};
    }
  }

  method Least<T(==)>(key: map<T, int>, candidates: set<T>) returns (least: T)
    requires candidates != {} && candidates <= key.Keys
    ensures least in candidates && forall x | x in candidates :: key[least] <= key[x]
  {
    least :| least in candidates;
    var rest := candidates - {least};
    while rest != {}
      invariant rest <= candidates && least in candidates
      invariant forall x | x in candidates - rest :: key[least] <= key[x]
      decreases rest
    {
      var x :| x in rest;
      if key[x] < key[least] {
        least := x;
      }
      rest := rest - {x};
    }
  }

  lemma LeastExists<T>(key: map<T, int>, candidates: set<T>) returns (least: T)
    requires candidates != {} && candidates <= key.Keys
    ensures least in candidates && forall x | x in candidates :: key[least] <= key[x]
  {
    least :| least in candidates;
    var rest := candidates - {least};
    if rest != {} {
      var other := LeastExists(key, rest);
      assert candidates == rest + {least};
      if key[other] < key[least] {
        least := other;
      }
    }
  }

  /** No query is ever stuck: whatever the rows are, a page of any size exists. */
  lemma {:induction false} PageExists<T>(key: map<T, int>, limit: nat)
    ensures exists rows: seq<T> :: Page(rows, key, limit)
  {
    if limit == 0 || |key| == 0 {
      var none: seq<T> := [];
      assert Page(none, key, limit);
    } else {
      var least := LeastExists(key, key.Keys);
      var rest := key - {least};
      assert rest.Keys == key.Keys - {least};
      PageExists(rest, limit - 1);
      var tail: seq<T> :| Page(tail, rest, limit - 1);
      assert forall r | r in tail :: r in rest && r != least;
      assert Page([least] + tail, key, limit) by {
        assert forall x | x in key && x !in [least] + tail :: x in rest && x !in tail;
      }
    }
  }

  /**
   * What a bounded, ordered page misses. Of the rows with a key under a threshold, either
   * all are on the page, or the page is full and every row on it is under the threshold.
   */
  lemma PageThreshold<T>(rows: seq<T>, key: map<T, int>, limit: nat, c: int)
    requires Page(rows, key, limit)
    ensures
      var under := set x | x in key && key[x] < c;
      under <= Ids(rows) || (|rows| == limit && Ids(rows) <= under)
  {
    var under := set x | x in key && key[x] < c;
    if !(under <= Ids(rows)) {
      var missed :| missed in under && missed !in Ids(rows);
      assert missed !in rows;
      assert forall r | r in rows :: key[r] <= key[missed];
      if |key| <= limit {
        DistinctSize(rows);
        assert Ids(rows) <= key.Keys;
        ProperSubsetSize(Ids(rows), key.Keys);
        assert false;
      }
    }
  }

  /** A page takes min(limit, n) of n rows. */
  lemma PageTakes<T>(rows: seq<T>, key: map<T, int>, limit: nat)
    requires Page(rows, key, limit)
    ensures |key.Keys - Ids(rows)| == (if |key| < limit then 0 else |key| - limit)
  {
    DistinctSize(rows);
    assert Ids(rows) <= key.Keys;
    assert |key.Keys - Ids(rows)| + |Ids(rows)| == |key.Keys| by {
      assert key.Keys == (key.Keys - Ids(rows)) + Ids(rows);
    }
  }

  /** An eligible row misses the page only if the page is full of rows that come no later. */
  lemma PageMisses<T>(rows: seq<T>, key: map<T, int>, limit: nat, x: T)
    requires Page(rows, key, limit) && x in key && x !in rows
    ensures |rows| == limit && forall r | r in rows :: key[r] <= key[x]
  {
    DistinctSize(rows);
    assert x in key.Keys - Ids(rows);
    PageTakes(rows, key, limit);
  }
}
