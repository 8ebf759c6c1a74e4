/**
 * Sequence operations the queries are built from: a WHERE clause is a
 * Filter, ORDER BY is a stable insertion sort on an integer key, and
 * LIMIT 1 is FirstWith.
 */
module Seqs {
  import opened Wrappers

  /** The rows of `s` that satisfy `p`, in their original order. */
  function Filter<T(!new)>(s: seq<T>, p: T -> bool): (r: seq<T>)
    ensures |r| <= |s|
    ensures forall i :: 0 <= i < |r| ==> p(r[i])
  {
    if s == [] then []
    else
      assert s == [s[0]] + s[1..];
      if p(s[0]) then [s[0]] + Filter(s[1..], p) else Filter(s[1..], p)
  }

  /** Filter keeps exactly the elements that satisfy `p`. */
  lemma {:induction false} FilterMembers<T(!new)>(s: seq<T>, p: T -> bool)
    ensures forall x :: x in Filter(s, p) <==> x in s && p(x)
  {
    if s != [] {
      FilterMembers(s[1..], p);
      assert s == [s[0]] + s[1..];
    }
  }

  /** Filter keeps every satisfying element as often as `s` has it. */
  lemma {:induction false} FilterMultiset<T(!new)>(s: seq<T>, p: T -> bool)
    ensures forall x :: multiset(Filter(s, p))[x] == if p(x) then multiset(s)[x] else 0
  {
    if s != [] {
      FilterMultiset(s[1..], p);
      assert s == [s[0]] + s[1..];
    }
  }

  /** The empty sequence is a unit of concatenation (stated as a lemma to keep it out of larger proof contexts). */
  lemma EmptyConcat<T>(s: seq<T>)
    ensures [] + s == s
  {
  }

  /** Filtering distributes over concatenation. */
  lemma {:induction false} FilterConcat<T(!new)>(a: seq<T>, b: seq<T>, p: T -> bool)
    ensures Filter(a + b, p) == Filter(a, p) + Filter(b, p)
  {
    if a == [] {
      assert a + b == b;
    } else {
      var ab := a + b;
      assert ab[0] == a[0] && ab[1..] == a[1..] + b;
      FilterConcat(a[1..], b, p);
      if p(a[0]) {
        calc {
          Filter(ab, p);
          [a[0]] + Filter(a[1..] + b, p);
          [a[0]] + (Filter(a[1..], p) + Filter(b, p));
          ([a[0]] + Filter(a[1..], p)) + Filter(b, p);
        }
      } else {
        assert Filter(ab, p) == Filter(a[1..] + b, p);
      }
    }
  }

  /** Appending rows that all fail `p` leaves the selection as it was. */
  lemma FilterAppendNone<T(!new)>(a: seq<T>, b: seq<T>, p: T -> bool)
    requires forall i :: 0 <= i < |b| ==> !p(b[i])
    ensures Filter(a + b, p) == Filter(a, p)
  {
    FilterConcat(a, b, p);
    FilterNone(b, p);
    assert Filter(a, p) + [] == Filter(a, p);
  }

  /** Appending rows that all pass `p` to rows that all fail it selects exactly the new rows. */
  lemma FilterAppendAll<T(!new)>(a: seq<T>, b: seq<T>, p: T -> bool)
    requires Filter(a, p) == []
    requires forall i :: 0 <= i < |b| ==> p(b[i])
    ensures Filter(a + b, p) == b
  {
    FilterConcat(a, b, p);
    FilterAll(b, p);
    EmptyConcat(b);
  }

  /** Two predicates that agree on every element select the same rows. */
  lemma {:induction false} FilterCongruent<T(!new)>(s: seq<T>, p: T -> bool, q: T -> bool)
    requires forall i :: 0 <= i < |s| ==> p(s[i]) == q(s[i])
    ensures Filter(s, p) == Filter(s, q)
  {
    if s != [] {
      FilterCongruent(s[1..], p, q);
    }
  }

  lemma {:induction false} FilterAll<T(!new)>(s: seq<T>, p: T -> bool)
    requires forall i :: 0 <= i < |s| ==> p(s[i])
    ensures Filter(s, p) == s
  {
    if s != [] {
      FilterAll(s[1..], p);
    }
  }

  lemma {:induction false} FilterNone<T(!new)>(s: seq<T>, p: T -> bool)
    requires forall i :: 0 <= i < |s| ==> !p(s[i])
    ensures Filter(s, p) == []
  {
    if s != [] {
      FilterNone(s[1..], p);
    }
  }

  /** If exactly the row at index k changes, from rejected to accepted, the filter grows by one. */
  lemma {:induction false} FilterPointChange<T(!new)>(s: seq<T>, s': seq<T>, p: T -> bool, k: nat)
    requires |s| == |s'| && k < |s|
    requires forall i :: 0 <= i < |s| && i != k ==> s[i] == s'[i]
    requires !p(s[k]) && p(s'[k])
    ensures |Filter(s', p)| == |Filter(s, p)| + 1
  {
    if k == 0 {
      assert s[1..] == s'[1..];
    } else {
      FilterPointChange(s[1..], s'[1..], p, k - 1);
    }
  }

  /** No two rows share a key (a primary key, or a uniqueness invariant). */
  predicate UniqueBy<T, K(==)>(s: seq<T>, key: T -> K) {
    forall i, j :: 0 <= i < j < |s| ==> key(s[i]) != key(s[j])
  }

  lemma {:induction false} FilterKeepsUnique<T(!new), K>(s: seq<T>, p: T -> bool, key: T -> K)
    requires UniqueBy(s, key)
    ensures UniqueBy(Filter(s, p), key)
  {
    if s != [] {
      FilterKeepsUnique(s[1..], p, key);
      if p(s[0]) {
        var rest := Filter(s[1..], p);
        FilterMembers(s[1..], p);
        forall j | 0 <= j < |rest| ensures key(s[0]) != key(rest[j]) {
          assert rest[j] in s[1..];
          var k :| 0 <= k < |s[1..]| && s[1..][k] == rest[j];
          assert s[k + 1] == rest[j];
        }
        assert Filter(s, p) == [s[0]] + rest;
      }
    }
  }

  /** The first row satisfying `p` (LIMIT 1 over an unordered SELECT). */
  function FirstWith<T>(s: seq<T>, p: T -> bool): (r: Option<T>)
    ensures r.None? <==> forall i :: 0 <= i < |s| ==> !p(s[i])
    ensures r.Some? ==> r.value in s && p(r.value)
  {
    if s == [] then None
    else if p(s[0]) then Some(s[0])
    else FirstWith(s[1..], p)
  }

  /** LIMIT 1 after appending a row: the old answer if there was one, otherwise the new row if it matches. */
  lemma {:induction false} FirstWithAppend<T>(s: seq<T>, x: T, p: T -> bool)
    ensures FirstWith(s + [x], p) ==
              if FirstWith(s, p).Some? then FirstWith(s, p) else if p(x) then Some(x) else None
  {
    if s == [] {
      assert (s + [x])[1..] == [];
    } else {
      assert (s + [x])[0] == s[0] && (s + [x])[1..] == s[1..] + [x];
      FirstWithAppend(s[1..], x, p);
    }
  }

  /** Removing only rows the lookup cannot match leaves the lookup as it was. */
  lemma {:induction false} FirstWithFilter<T(!new)>(s: seq<T>, keep: T -> bool, p: T -> bool)
    requires forall x :: p(x) ==> keep(x)
    ensures FirstWith(Filter(s, keep), p) == FirstWith(s, p)
  {
    if s != [] {
      FirstWithFilter(s[1..], keep, p);
      if keep(s[0]) {
        var f := Filter(s[1..], keep);
        assert ([s[0]] + f)[0] == s[0] && ([s[0]] + f)[1..] == f;
      }
    }
  }

  /** Rows that change only where the lookup matches neither version leave the lookup as it was. */
  lemma {:induction false} FirstWithSameSelection<T>(s: seq<T>, s': seq<T>, p: T -> bool)
    requires |s| == |s'|
    requires forall i :: 0 <= i < |s| ==> (p(s[i]) || p(s'[i]) ==> s[i] == s'[i])
    ensures FirstWith(s', p) == FirstWith(s, p)
  {
    if s != [] {
      FirstWithSameSelection(s[1..], s'[1..], p);
    }
  }

  /** Rows that change only where the predicate rejects both versions select the same rows. */
  lemma {:induction false} FilterSameSelection<T(!new)>(s: seq<T>, s': seq<T>, p: T -> bool)
    requires |s| == |s'|
    requires forall i :: 0 <= i < |s| ==> (p(s[i]) || p(s'[i]) ==> s[i] == s'[i])
    ensures Filter(s', p) == Filter(s, p)
  {
    if s != [] {
      assert s == [s[0]] + s[1..] && s' == [s'[0]] + s'[1..];
      FilterSameSelection(s[1..], s'[1..], p);
    }
  }

  /** Ascending by `key`. */
  predicate SortedBy<T>(s: seq<T>, key: T -> int) {
    forall i, j :: 0 <= i < j < |s| ==> key(s[i]) <= key(s[j])
  }

  /** Strictly ascending by `key`: no two rows tie, so an ORDER BY on `key` fixes their order. */
  predicate StrictlySortedBy<T>(s: seq<T>, key: T -> int) {
    forall i, j :: 0 <= i < j < |s| ==> key(s[i]) < key(s[j])
  }

  /** Every element of `rest` is `x` or an element of `s`, so a bound on both bounds `rest`. */
  lemma BoundedByParts<T>(lo: int, x: T, s: seq<T>, rest: seq<T>, key: T -> int)
    requires multiset(rest) == multiset(s) + multiset{x}
    requires lo <= key(x) && forall i :: 0 <= i < |s| ==> lo <= key(s[i])
    ensures forall j :: 0 <= j < |rest| ==> lo <= key(rest[j])
  {
    forall j | 0 <= j < |rest| ensures lo <= key(rest[j]) {
      assert rest[j] in multiset(rest);
      if rest[j] != x {
        assert rest[j] in s;
      }
    }
  }

  lemma SortedCons<T>(h: T, rest: seq<T>, key: T -> int)
    requires SortedBy(rest, key) && forall j :: 0 <= j < |rest| ==> key(h) <= key(rest[j])
    ensures SortedBy([h] + rest, key)
  {
  }

  function InsertBy<T>(x: T, s: seq<T>, key: T -> int): (r: seq<T>)
    requires SortedBy(s, key)
    ensures SortedBy(r, key)
    ensures multiset(r) == multiset(s) + multiset{x}
  {
    if s == [] || key(x) <= key(s[0]) then [x] + s
    else
      var rest := InsertBy(x, s[1..], key);
      assert s == [s[0]] + s[1..];
      BoundedByParts(key(s[0]), x, s[1..], rest, key);
      SortedCons(s[0], rest, key);
      [s[0]] + rest
  }

  /** A stable sort: the order an ORDER BY on `key` may return the rows in. */
  function SortBy<T>(s: seq<T>, key: T -> int): (r: seq<T>)
    ensures SortedBy(r, key)
    ensures multiset(r) == multiset(s)
    ensures |r| == |s|
  {
    if s == [] then []
    else
      assert s == [s[0]] + s[1..];
      InsertBy(s[0], SortBy(s[1..], key), key)
  }

  /** Sorting rows that are already in order leaves them where they are. */
  lemma {:induction false} SortSorted<T>(s: seq<T>, key: T -> int)
    requires SortedBy(s, key)
    ensures SortBy(s, key) == s
  {
    if s != [] {
      SortSorted(s[1..], key);
    }
  }

  /** A sequence never has more distinct elements than it has entries. */
  lemma {:induction false} DistinctBound<T>(s: seq<T>)
    ensures |set x | x in s| <= |s|
  {
    if s != [] {
      DistinctBound(s[1..]);
      assert (set x | x in s) == (set x | x in s[1..]) + {s[0]};
    }
  }
}
