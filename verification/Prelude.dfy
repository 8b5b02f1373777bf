/** Small value types and arithmetic shared by every component. */
module Prelude {

  datatype Option<+T> = None | Some(value: T)

  /** The error statuses the services raise. */
  datatype HttpError = BadRequest | Unauthorized | Forbidden | NotFound | Conflict | ServerError

  datatype Result<+T> = Ok(value: T) | Err(error: HttpError)

  function Max(a: int, b: int): int {
    if a > b then a else b
  }

  function Min(a: int, b: int): int {
    if a < b then a else b
  }

  /** `Math.ceil(ms / 1000)`. */
  function CeilSeconds(ms: int): int {
    -((-ms) / 1000)
  }

  lemma SubsetSize<T>(a: set<T>, b: set<T>)
    requires a <= b
    ensures |a| <= |b|
  {
    assert |a| + |b - a| == |b| by {
      assert b == a + (b - a);
    }
  }

  lemma ProperSubsetSize<T>(a: set<T>, b: set<T>)
    requires a <= b && |a| == |b|
    ensures a == b
  {
    assert |a| + |b - a| == |b| by {
      assert b == a + (b - a);
    }
    assert b - a == {};
  }

  /** The elements of a sequence, in any order and once each: `new Set(rows)`. */
  function Ids<T>(rows: seq<T>): set<T> {
    set r | r in rows
  }

  predicate Distinct<T(==)>(rows: seq<T>) {
    forall i, j | 0 <= i < j < |rows| :: rows[i] != rows[j]
  }

  lemma DistinctSize<T>(rows: seq<T>)
    requires Distinct(rows)
    ensures |Ids(rows)| == |rows|
  {
    if rows == [] {
    } else {
      var last := rows[|rows| - 1];
      var init := rows[..|rows| - 1];
      DistinctSize(init);
      assert rows == init + [last];
      assert Ids(rows) == Ids(init) + {last};
      assert last !in Ids(init);
    }
  }

  /** `[...new Set(rows)]`: the first occurrence of each element, in order. */
  function Dedup<T(==)>(rows: seq<T>): (unique: seq<T>)
    ensures Distinct(unique) && Ids(unique) == Ids(rows)
  {
    if rows == [] then
      []
    else
      var init, last := rows[..|rows| - 1], rows[|rows| - 1];
      assert rows == init + [last] && Ids(rows) == Ids(init) + {last};
      var unique := Dedup(init);
      if last in unique then
        assert last in Ids(unique);
        unique
      else
        assert Ids(unique + [last]) == Ids(unique) + {last};
        unique + [last]
  }

  /** `xs.filter((x) => !drop.has(x))`. */
  function Without<T(==)>(xs: seq<T>, drop: set<T>): (kept: seq<T>)
    ensures Ids(kept) == Ids(xs) - drop
  {
    if xs == [] then
      []
    else
      var init, last := xs[..|xs| - 1], xs[|xs| - 1];
      assert xs == init + [last] && Ids(xs) == Ids(init) + {last};
      var kept := Without(init, drop);
      if last in drop then
        kept
      else
        assert Ids(kept + [last]) == Ids(kept) + {last};
        kept + [last]
  }
}
