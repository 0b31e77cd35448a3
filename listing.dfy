/** The shape of every `GET` handler: `WHERE` filters joined by `AND`, then
    `ORDER BY <date> DESC, <timestamp> DESC` or `ORDER BY <timestamp> DESC`. */
module Listing {
  import opened Common

  /** The columns a listing is ordered by: a date, then a timestamp instant. */
  datatype SortKey = SortKey(date: Date, instant: nat)

  /** The key of an `ORDER BY <timestamp> DESC` alone: the instant, under a date
      shared by every row, so the order is the order of the instants. */
  function InstantKey(t: Timestamp): SortKey
  {
    SortKey(Date(0, 0, 0), t.instant)
  }

  /** Instant keys compare exactly as their instants do. */
  lemma InstantKeyOrder(t: Timestamp, u: Timestamp)
    ensures KeyLe(InstantKey(t), InstantKey(u)) <==> t.instant <= u.instant
  {
  }

  predicate DateLe(a: Date, b: Date)
  {
    a.year < b.year || (a.year == b.year && (a.month < b.month || (a.month == b.month && a.day <= b.day)))
  }

  /** `a` sorts no later than `b` in ascending order. */
  predicate KeyLe(a: SortKey, b: SortKey)
  {
    (DateLe(a.date, b.date) && a.date != b.date) || (a.date == b.date && a.instant <= b.instant)
  }

  /** Newest first: every row's key is at least that of every row after it. */
  ghost predicate SortedDesc<T>(s: seq<T>, key: T -> SortKey)
  {
    forall i, j :: 0 <= i < j < |s| ==> KeyLe(key(s[j]), key(s[i]))
  }

  /** The rows of `s` that satisfy `p`, in table order. */
  function Filter<T(!new)>(s: seq<T>, p: T -> bool): (r: seq<T>)
    ensures forall x :: multiset(r)[x] == if p(x) then multiset(s)[x] else 0
    ensures forall x :: x in r <==> x in s && p(x)
  {
    if s == [] then []
    else
      var last := s[|s| - 1];
      assert s == s[..|s| - 1] + [last];
      if p(last) then Filter(s[..|s| - 1], p) + [last] else Filter(s[..|s| - 1], p)
  }

  /** Filtering keeps rows in table order: a rank that increases along `s` increases
      along the filtered rows too. */
  lemma {:induction false} FilterKeepsOrder<T(!new)>(s: seq<T>, p: T -> bool, rank: T -> int)
    requires forall i, j :: 0 <= i < j < |s| ==> rank(s[i]) < rank(s[j])
    ensures forall i, j :: 0 <= i < j < |Filter(s, p)| ==> rank(Filter(s, p)[i]) < rank(Filter(s, p)[j])
  {
    if s != [] {
      var init, last := s[..|s| - 1], s[|s| - 1];
      FilterKeepsOrder(init, p, rank);
      var f := Filter(init, p);
      if p(last) {
        forall k | 0 <= k < |f| ensures rank(f[k]) < rank(last) {
          assert f[k] in init;
          var m :| 0 <= m < |init| && init[m] == f[k];
          assert s[m] == f[k];
        }
        AppendKeepsOrder(f, last, rank);
        assert Filter(s, p) == f + [last];
      } else {
        assert Filter(s, p) == f;
      }
    }
  }

  /** Appending a row ranked above every row keeps the ranks increasing. */
  lemma AppendKeepsOrder<T>(f: seq<T>, last: T, rank: T -> int)
    requires forall i, j :: 0 <= i < j < |f| ==> rank(f[i]) < rank(f[j])
    requires forall k :: 0 <= k < |f| ==> rank(f[k]) < rank(last)
    ensures forall i, j :: 0 <= i < j < |f + [last]| ==> rank((f + [last])[i]) < rank((f + [last])[j])
  {
  }

  /** Places `x` into rows sorted newest first, before the first row that is not newer. */
  function Insert<T>(x: T, s: seq<T>, key: T -> SortKey): (r: seq<T>)
    ensures multiset(r) == multiset(s) + multiset{x}
  {
    if s == [] then [x]
    else if KeyLe(key(s[0]), key(x)) then [x] + s
    else
      assert s == [s[0]] + s[1..];
      [s[0]] + Insert(x, s[1..], key)
  }

  lemma {:induction false} InsertSorted<T>(x: T, s: seq<T>, key: T -> SortKey)
    requires SortedDesc(s, key)
    ensures SortedDesc(Insert(x, s, key), key)
  {
    if s != [] && !KeyLe(key(s[0]), key(x)) {
      var rest := Insert(x, s[1..], key);
      InsertSorted(x, s[1..], key);
      forall j | 0 <= j < |rest| ensures KeyLe(key(rest[j]), key(s[0])) {
        assert rest[j] in multiset(rest);
        assert rest[j] == x || rest[j] in multiset(s[1..]);
        if rest[j] != x {
          var k :| 0 <= k < |s[1..]| && s[1..][k] == rest[j];
          assert s[k + 1] == rest[j];
        }
      }
      var r := [s[0]] + rest;
      assert forall j :: 1 <= j < |r| ==> r[j] == rest[j - 1];
    }
  }

  /** `ORDER BY ... DESC` as an insertion sort. Rows with equal keys may come out in any
      order in SQL; this picks one of the admissible orders. */
  function SortDesc<T>(s: seq<T>, key: T -> SortKey): (r: seq<T>)
    ensures multiset(r) == multiset(s)
  {
    if s == [] then []
    else
      assert s == [s[0]] + s[1..];
      Insert(s[0], SortDesc(s[1..], key), key)
  }

  /** The sort returns its rows newest first. */
  lemma {:induction false} SortDescSorted<T>(s: seq<T>, key: T -> SortKey)
    ensures SortedDesc(SortDesc(s, key), key)
  {
    if s != [] {
      SortDescSorted(s[1..], key);
      InsertSorted(s[0], SortDesc(s[1..], key), key);
    }
  }
}
