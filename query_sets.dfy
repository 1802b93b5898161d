/**
 * The object-relational mapper's `filter` and `exclude` over an ordered list
 * of rows: both keep the order of the rows they keep and keep each one as
 * often as it occurs.
 */
module QuerySets {

  /** No row occurs twice. */
  predicate NoRepeats<T(==)>(xs: seq<T>) {
    forall i, j :: 0 <= i < j < |xs| ==> xs[i] != xs[j]
  }

  /** The distinct rows of a list: `set(xs)`, or the pairs a junction table holds. */
  function ElementSet<T(==)>(xs: seq<T>): set<T> {
    set x | x in xs
  }

  /** `xs` is `ys` with some rows left out and the others in their order. */
  predicate Subsequence<T(==)>(xs: seq<T>, ys: seq<T>)
    decreases |ys|
  {
    if xs == [] then true
    else if ys == [] then false
    else if xs[0] == ys[0] then Subsequence(xs[1..], ys[1..])
    else Subsequence(xs, ys[1..])
  }

  /** The rows of `rows` for which `keep` holds, in their order. */
  function Where<T(!new)>(rows: seq<T>, keep: T -> bool): (r: seq<T>)
    ensures forall x :: x in r <==> x in rows && keep(x)
    ensures multiset(r) <= multiset(rows)
  {
    if rows == [] then []
    else
      assert rows == [rows[0]] + rows[1..];
      (if keep(rows[0]) then [rows[0]] else []) + Where(rows[1..], keep)
  }

  /** A kept row appears as often as in `rows`, a dropped one not at all. */
  lemma {:induction false} WhereCount<T(!new)>(rows: seq<T>, keep: T -> bool)
    ensures forall x :: multiset(Where(rows, keep))[x] == if keep(x) then multiset(rows)[x] else 0
  {
    if rows != [] {
      WhereCount(rows[1..], keep);
      assert rows == [rows[0]] + rows[1..];
    }
  }

  /** The kept rows stay in the order they had. */
  lemma {:induction false} WhereKeepsOrder<T(!new)>(rows: seq<T>, keep: T -> bool)
    ensures Subsequence(Where(rows, keep), rows)
  {
    if rows != [] {
      var head, rest := rows[0], Where(rows[1..], keep);
      WhereKeepsOrder(rows[1..], keep);
      if keep(head) {
        assert Where(rows, keep) == [head] + rest;
        assert ([head] + rest)[1..] == rest;
      } else {
        assert Where(rows, keep) == rest;
        assert rest != [] ==> rest[0] in rest && rest[0] != head;
      }
    }
  }

  /** A filtered list of distinct rows still has distinct rows. */
  lemma {:induction false} WhereNoRepeats<T(!new)>(rows: seq<T>, keep: T -> bool)
    requires NoRepeats(rows)
    ensures NoRepeats(Where(rows, keep))
  {
    if rows != [] {
      var rest := rows[1..];
      assert NoRepeats(rest) by {
        forall i, j | 0 <= i < j < |rest| ensures rest[i] != rest[j] {
          assert rest[i] == rows[i + 1] && rest[j] == rows[j + 1];
        }
      }
      WhereNoRepeats(rest, keep);
      var tail := Where(rest, keep);
      if keep(rows[0]) {
        assert rows[0] !in rest;
        var r := [rows[0]] + tail;
        forall i, j | 0 <= i < j < |r| ensures r[i] != r[j] {
          if i == 0 { assert r[j] == tail[j - 1]; assert r[j] in rest; }
          else { assert r[i] == tail[i - 1] && r[j] == tail[j - 1]; }
        }
      }
    }
  }

  /** `queryset.filter(pk__in=ids)`. */
  function FilterIn(qs: seq<int>, ids: set<int>): (r: seq<int>)
    ensures forall x :: x in r <==> x in qs && x in ids
    ensures multiset(r) <= multiset(qs)
  {
    Where(qs, (pk: int) => pk in ids)
  }

  /** `queryset.exclude(pk__in=ids)`. */
  function ExcludeIn(qs: seq<int>, ids: set<int>): (r: seq<int>)
    ensures forall x :: x in r <==> x in qs && x !in ids
    ensures multiset(r) <= multiset(qs)
  {
    Where(qs, (pk: int) => pk !in ids)
  }

  /** `filter(pk__in=ids)` keeps a listed row as often as it occurs. */
  lemma FilterInCount(qs: seq<int>, ids: set<int>)
    ensures forall x :: multiset(FilterIn(qs, ids))[x] == if x in ids then multiset(qs)[x] else 0
  {
    WhereCount(qs, (pk: int) => pk in ids);
  }

  /** `exclude(pk__in=ids)` keeps an unlisted row as often as it occurs. */
  lemma ExcludeInCount(qs: seq<int>, ids: set<int>)
    ensures forall x :: multiset(ExcludeIn(qs, ids))[x] == if x !in ids then multiset(qs)[x] else 0
  {
    WhereCount(qs, (pk: int) => pk !in ids);
  }

  lemma FilterInNoRepeats(qs: seq<int>, ids: set<int>)
    requires NoRepeats(qs)
    ensures NoRepeats(FilterIn(qs, ids))
  {
    WhereNoRepeats(qs, (pk: int) => pk in ids);
  }

  lemma ExcludeInNoRepeats(qs: seq<int>, ids: set<int>)
    requires NoRepeats(qs)
    ensures NoRepeats(ExcludeIn(qs, ids))
  {
    WhereNoRepeats(qs, (pk: int) => pk !in ids);
  }

  /**
   * For the same id set, `filter` and `exclude` split the input: together
   * they hold every row exactly as often as the input does, and no row is in both.
   */
  lemma {:induction false} FilterExcludePartition(qs: seq<int>, ids: set<int>)
    ensures multiset(FilterIn(qs, ids)) + multiset(ExcludeIn(qs, ids)) == multiset(qs)
    ensures forall x :: !(x in FilterIn(qs, ids) && x in ExcludeIn(qs, ids))
  {
    if qs != [] {
      FilterExcludePartition(qs[1..], ids);
      assert qs == [qs[0]] + qs[1..];
      assert FilterIn(qs, ids) == (if qs[0] in ids then [qs[0]] else []) + FilterIn(qs[1..], ids);
      assert ExcludeIn(qs, ids) == (if qs[0] !in ids then [qs[0]] else []) + ExcludeIn(qs[1..], ids);
    }
  }

  /** Filtering by the ids of every row changes nothing. */
  lemma {:induction false} FilterAllIsIdentity(qs: seq<int>, ids: set<int>)
    requires forall x :: x in qs ==> x in ids
    ensures FilterIn(qs, ids) == qs
  {
    if qs != [] {
      var head := qs[0];
      assert head in qs;
      FilterAllIsIdentity(qs[1..], ids);
      assert FilterIn(qs, ids) == [head] + FilterIn(qs[1..], ids);
    }
  }
}
