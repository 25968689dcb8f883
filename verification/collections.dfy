/**
 * Sequence operations that stand in for the SQL the endpoints issue:
 * WHERE (Filter), COUNT(*) (Count), ORDER BY (SortBy, a stable insertion
 * sort), LIMIT/OFFSET (Slice) and PHP's array_reverse (Reverse).
 */
module Seqs {
  import opened Wrappers

  /** The rows of `s` that satisfy `p`, in table order. */
  function Filter<T>(s: seq<T>, p: T -> bool): (r: seq<T>)
    ensures |r| <= |s|
    ensures forall x :: x in r ==> x in s && p(x)
    ensures forall x :: x in s && p(x) ==> x in r
    ensures multiset(r) <= multiset(s)
  {
    if s == [] then []
    else
      assert s == [s[0]] + s[1..];
      if p(s[0]) then [s[0]] + Filter(s[1..], p) else Filter(s[1..], p)
  }

  /** COUNT(*) of a WHERE clause. */
  function Count<T>(s: seq<T>, p: T -> bool): nat {
    |Filter(s, p)|
  }

  /** Appending rows filters piecewise, so counts add up. */
  lemma {:induction false} FilterAppend<T>(a: seq<T>, b: seq<T>, p: T -> bool)
    ensures Filter(a + b, p) == Filter(a, p) + Filter(b, p)
  {
    if a != [] {
      assert (a + b)[0] == a[0] && (a + b)[1..] == a[1..] + b;
      FilterAppend(a[1..], b, p);
      if p(a[0]) {
        assert Filter(a + b, p) == [a[0]] + Filter(a[1..] + b, p);
      }
    } else {
      assert a + b == b;
    }
  }

  /** Filtering by `p` keeps nothing that a subsequent filter by `p` would drop. */
  lemma {:induction false} FilterIdempotent<T>(s: seq<T>, p: T -> bool)
    ensures Filter(Filter(s, p), p) == Filter(s, p)
  {
    if s != [] {
      FilterIdempotent(s[1..], p);
    }
  }

  /** Two WHERE clauses that agree on every row select the same rows. */
  lemma {:induction false} FilterSame<T>(s: seq<T>, p: T -> bool, q: T -> bool)
    requires forall x :: x in s ==> p(x) == q(x)
    ensures Filter(s, p) == Filter(s, q)
  {
    if s != [] {
      FilterSame(s[1..], p, q);
    }
  }

  /** A WHERE clause every row satisfies selects the whole table. */
  lemma {:induction false} FilterAll<T>(s: seq<T>, p: T -> bool)
    requires forall x :: x in s ==> p(x)
    ensures Filter(s, p) == s
  {
    if s != [] {
      assert forall x :: x in s[1..] ==> x in s;
      FilterAll(s[1..], p);
      assert s == [s[0]] + s[1..];
    }
  }

  /** No row satisfies `p` exactly when the count is zero. */
  lemma CountZero<T>(s: seq<T>, p: T -> bool)
    ensures Count(s, p) == 0 <==> forall x :: x in s ==> !p(x)
  {
    if Count(s, p) != 0 {
      assert Filter(s, p)[0] in Filter(s, p);
    }
  }

  // ---------------------------------------------------------------- ORDER BY

  ghost predicate Total<T(!new)>(le: (T, T) -> bool) {
    forall a, b :: le(a, b) || le(b, a)
  }

  ghost predicate Transitive<T(!new)>(le: (T, T) -> bool) {
    forall a, b, c :: le(a, b) && le(b, c) ==> le(a, c)
  }

  /** Every earlier row comes no later than every later one under `le`. */
  ghost predicate Sorted<T>(s: seq<T>, le: (T, T) -> bool) {
    forall i, j :: 0 <= i < j < |s| ==> le(s[i], s[j])
  }

  /** Place `x` before the first row it does not follow. */
  function Insert<T>(x: T, s: seq<T>, le: (T, T) -> bool): (r: seq<T>)
    ensures |r| == |s| + 1
    ensures multiset(r) == multiset(s) + multiset{x}
  {
    if s == [] || le(x, s[0]) then [x] + s
    else
      assert s == [s[0]] + s[1..];
      [s[0]] + Insert(x, s[1..], le)
  }

  /** ORDER BY `le`: a stable insertion sort (rows that tie keep table order). */
  function SortBy<T>(s: seq<T>, le: (T, T) -> bool): (r: seq<T>)
    ensures |r| == |s|
    ensures multiset(r) == multiset(s)
  {
    if s == [] then []
    else
      assert s == [s[0]] + s[1..];
      Insert(s[0], SortBy(s[1..], le), le)
  }

  lemma {:induction false} InsertSorted<T(!new)>(x: T, s: seq<T>, le: (T, T) -> bool)
    requires Total(le) && Transitive(le)
    requires Sorted(s, le)
    ensures Sorted(Insert(x, s, le), le)
  {
    if s != [] && !le(x, s[0]) {
      var t := s[1..];
      assert Sorted(t, le);
      InsertSorted(x, t, le);
      var r := Insert(x, s, le);
      var rest := Insert(x, t, le);
      assert r == [s[0]] + rest;
      assert le(s[0], x);
      forall j | 0 <= j < |rest| ensures le(s[0], rest[j]) {
        assert rest[j] in multiset(t) + multiset{x} by {
          assert rest[j] in multiset(rest);
        }
        if rest[j] != x {
          assert rest[j] in t;
        }
      }
    }
  }

  /** The sort yields a sorted permutation of its input. */
  lemma {:induction false} SortBySorted<T(!new)>(s: seq<T>, le: (T, T) -> bool)
    requires Total(le) && Transitive(le)
    ensures Sorted(SortBy(s, le), le)
  {
    if s != [] {
      SortBySorted(s[1..], le);
      InsertSorted(s[0], SortBy(s[1..], le), le);
    }
  }

  /** Sorting keeps exactly the rows it was given. */
  lemma SortByIn<T>(s: seq<T>, le: (T, T) -> bool)
    ensures forall x :: x in SortBy(s, le) <==> x in s
  {
    var r := SortBy(s, le);
    forall x
      ensures x in r <==> x in s
    {
      assert x in r <==> x in multiset(r);
      assert x in s <==> x in multiset(s);
    }
  }

  /** ORDER BY key DESC. */
  function Desc<T>(key: T -> int): (T, T) -> bool {
    (a: T, b: T) => key(a) >= key(b)
  }

  lemma DescIsOrder<T(!new)>(key: T -> int)
    ensures Total(Desc(key)) && Transitive(Desc(key))
  {
  }

  /** ORDER BY key DESC yields rows with non-increasing keys. */
  lemma SortDescOrdered<T(!new)>(s: seq<T>, key: T -> int)
    ensures forall i, j :: 0 <= i < j < |s| ==> key(SortBy(s, Desc(key))[i]) >= key(SortBy(s, Desc(key))[j])
  {
    DescIsOrder(key);
    SortBySorted(s, Desc(key));
  }

  // ---------------------------------------------------------------- LIMIT / OFFSET

  function Min(a: int, b: int): int {
    if a <= b then a else b
  }

  /** LIMIT limit OFFSET offset. */
  function Slice<T>(s: seq<T>, offset: nat, limit: nat): (r: seq<T>)
    ensures |r| == Min(limit, |s| - Min(offset, |s|))
    ensures forall k :: 0 <= k < |r| ==> r[k] == s[offset + k]
  {
    var lo := Min(offset, |s|);
    var hi := Min(offset + limit, |s|);
    s[lo..hi]
  }

  /** The whole result of ORDER BY key DESC: a sorted permutation of `s`. */
  function SortDesc<T(!new)>(s: seq<T>, key: T -> int): (r: seq<T>)
    ensures multiset(r) == multiset(s)
    ensures forall i, j :: 0 <= i < j < |r| ==> key(r[i]) >= key(r[j])
  {
    SortDescOrdered(s, key);
    SortBy(s, Desc(key))
  }

  /**
   * ORDER BY key DESC LIMIT limit OFFSET offset: the `limit` rows of the
   * ordered result that start at position `offset`, fewer at the end.
   */
  function PageDesc<T(!new)>(s: seq<T>, key: T -> int, offset: nat, limit: nat): (r: seq<T>)
    ensures |r| == Min(limit, |s| - Min(offset, |s|))
    ensures forall k :: 0 <= k < |r| ==> r[k] == SortDesc(s, key)[offset + k]
    ensures forall x :: x in r ==> x in s
    ensures forall i, j :: 0 <= i < j < |r| ==> key(r[i]) >= key(r[j])
  {
    var sorted := SortDesc(s, key);
    assert forall x :: x in sorted ==> x in s by {
      forall x | x in sorted ensures x in s {
        assert x in multiset(sorted);
      }
    }
    Slice(sorted, offset, limit)
  }

  /** Every row of the ordered result is on exactly the page its position gives. */
  lemma RowOnItsPage<T(!new)>(s: seq<T>, key: T -> int, i: nat, limit: nat)
    requires i < |s| && limit >= 1
    ensures var offset := (i / limit) * limit;
            offset <= i < offset + limit
            && PageDesc(s, key, offset, limit)[i - offset] == SortDesc(s, key)[i]
  {
    var offset := (i / limit) * limit;
    assert offset <= i < offset + limit by {
      assert i == (i / limit) * limit + i % limit;
    }
  }

  /** A first page as large as the whole result holds every row. */
  lemma PageDescAll<T(!new)>(s: seq<T>, key: T -> int, limit: nat)
    requires |s| <= limit
    ensures multiset(PageDesc(s, key, 0, limit)) == multiset(s)
  {
    assert PageDesc(s, key, 0, limit) == SortDesc(s, key);
  }

  /** array_reverse(). */
  function Reverse<T>(s: seq<T>): (r: seq<T>)
    ensures |r| == |s|
    ensures forall k :: 0 <= k < |s| ==> r[k] == s[|s| - 1 - k]
  {
    if s == [] then [] else Reverse(s[1..]) + [s[0]]
  }

  /** Reversing twice restores the original order. */
  lemma ReverseInvolution<T>(s: seq<T>)
    ensures Reverse(Reverse(s)) == s
  {
    assert forall k :: 0 <= k < |s| ==> Reverse(Reverse(s))[k] == s[k];
  }

  /** The rows of `s`, one projected column each. */
  function Map<T, U>(s: seq<T>, f: T -> U): (r: seq<U>)
    ensures |r| == |s|
    ensures forall k :: 0 <= k < |s| ==> r[k] == f(s[k])
  {
    if s == [] then [] else [f(s[0])] + Map(s[1..], f)
  }

  // ---------------------------------------------------------------- SELECT one row / UPDATE ... WHERE

  /** The position of the first row that satisfies `p`, as a single-row SELECT finds it. */
  function Find<T>(s: seq<T>, p: T -> bool): (r: Option<nat>)
    ensures r.Some? ==> r.value < |s| && p(s[r.value]) && forall j :: 0 <= j < r.value ==> !p(s[j])
    ensures r.None? <==> forall j :: 0 <= j < |s| ==> !p(s[j])
  {
    if s == [] then None
    else if p(s[0]) then Some(0)
    else match Find(s[1..], p)
      case None => None
      case Some(i) => Some(i + 1)
  }

  /** UPDATE ... SET f WHERE p: every row that satisfies `p` is replaced by `f` of itself. */
  function UpdateWhere<T>(s: seq<T>, p: T -> bool, f: T -> T): (r: seq<T>)
    ensures |r| == |s|
    ensures forall k :: 0 <= k < |s| ==> r[k] == if p(s[k]) then f(s[k]) else s[k]
  {
    if s == [] then [] else [if p(s[0]) then f(s[0]) else s[0]] + UpdateWhere(s[1..], p, f)
  }

  /** An UPDATE whose WHERE clause no row satisfies leaves the table as it was. */
  lemma UpdateNothing<T>(s: seq<T>, p: T -> bool, f: T -> T)
    requires forall k :: 0 <= k < |s| ==> !p(s[k])
    ensures UpdateWhere(s, p, f) == s
  {
  }

  // ---------------------------------------------------------------- keys

  /** No two rows share a key (a PRIMARY or UNIQUE KEY). */
  ghost predicate UniqueBy<T, K>(s: seq<T>, key: T -> K) {
    forall i, j :: 0 <= i < j < |s| ==> key(s[i]) != key(s[j])
  }

  /** Appending a row whose key is new keeps keys unique. */
  lemma UniqueAppend<T, K>(s: seq<T>, x: T, key: T -> K)
    requires UniqueBy(s, key)
    requires forall k :: 0 <= k < |s| ==> key(s[k]) != key(x)
    ensures UniqueBy(s + [x], key)
  {
  }

  /** Deleting rows keeps keys unique. */
  lemma {:induction false} UniqueFilter<T, K>(s: seq<T>, p: T -> bool, key: T -> K)
    requires UniqueBy(s, key)
    ensures UniqueBy(Filter(s, p), key)
  {
    if s != [] {
      UniqueFilter(s[1..], p, key);
      var rest := Filter(s[1..], p);
      if p(s[0]) {
        forall j | 0 <= j < |rest| ensures key(s[0]) != key(rest[j]) {
          assert rest[j] in s[1..];
          var m :| 1 <= m < |s| && s[m] == rest[j];
        }
        assert Filter(s, p) == [s[0]] + rest;
      }
    }
  }

  /** An UPDATE that does not touch the key columns keeps keys unique. */
  lemma UniqueUpdate<T, K>(s: seq<T>, p: T -> bool, f: T -> T, key: T -> K)
    requires UniqueBy(s, key)
    requires forall x :: key(f(x)) == key(x)
    ensures UniqueBy(UpdateWhere(s, p, f), key)
  {
    var r := UpdateWhere(s, p, f);
    forall i, j | 0 <= i < j < |r| ensures key(r[i]) != key(r[j]) {
      assert key(r[i]) == key(s[i]) && key(r[j]) == key(s[j]);
    }
  }
}
