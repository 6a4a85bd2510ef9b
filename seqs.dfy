/**
 * Generic list operations shared by the query layer and the frontend reducers:
 * filtering (Python comprehensions and `Array.filter`), first-match search
 * (`Array.find` / `findIndex`), offset/limit paging (SQL OFFSET/LIMIT), counting
 * and a stable sort by an integer key (`sorted(key=...)`, ORDER BY).
 */
module Seqs {
  import opened Wrappers

  function Min(a: int, b: int): int {
    if a <= b then a else b
  }

  /** The elements of `s` that satisfy `p`, in their original order. */
  function Filter<T>(s: seq<T>, p: T -> bool): (r: seq<T>)
    ensures |r| <= |s|
  {
    if s == [] then [] else (if p(s[0]) then [s[0]] else []) + Filter(s[1..], p)
  }

  lemma {:induction false} FilterMembers<T>(s: seq<T>, p: T -> bool, x: T)
    ensures x in Filter(s, p) <==> x in s && p(x)
  {
    if s != [] {
      FilterMembers(s[1..], p, x);
      assert s == [s[0]] + s[1..];
    }
  }

  lemma {:induction false} FilterAppend<T>(a: seq<T>, b: seq<T>, p: T -> bool)
    ensures Filter(a + b, p) == Filter(a, p) + Filter(b, p)
  {
    if a == [] {
      assert a + b == b;
    } else {
      var h := if p(a[0]) then [a[0]] else [];
      assert (a + b)[0] == a[0];
      assert (a + b)[1..] == a[1..] + b;
      calc {
        Filter(a + b, p);
        h + Filter(a[1..] + b, p);
        { FilterAppend(a[1..], b, p); }
        h + (Filter(a[1..], p) + Filter(b, p));
        (h + Filter(a[1..], p)) + Filter(b, p);
      }
    }
  }

  /** Whatever passes the filter was in the input and satisfies the predicate. */
  lemma FilterSubset<T>(s: seq<T>, p: T -> bool)
    ensures forall x :: x in Filter(s, p) ==> x in s && p(x)
  {
    forall x | x in Filter(s, p) ensures x in s && p(x) {
      FilterMembers(s, p, x);
    }
  }

  /** Predicates that agree on every element filter alike. */
  lemma {:induction false} FilterSame<T>(s: seq<T>, p: T -> bool, q: T -> bool)
    requires forall x :: p(x) == q(x)
    ensures Filter(s, p) == Filter(s, q)
  {
    if s != [] {
      FilterSame(s[1..], p, q);
    }
  }

  /** Filtering keeps every element when all of them pass: nothing is reordered or dropped. */
  lemma {:induction false} FilterAll<T>(s: seq<T>, p: T -> bool)
    requires forall k :: 0 <= k < |s| ==> p(s[k])
    ensures Filter(s, p) == s
  {
    if s != [] {
      FilterAll(s[1..], p);
    }
  }

  lemma {:induction false} FilterNone<T>(s: seq<T>, p: T -> bool)
    requires forall k :: 0 <= k < |s| ==> !p(s[k])
    ensures Filter(s, p) == []
  {
    if s != [] {
      FilterNone(s[1..], p);
    }
  }

  /** The number of elements of `s` that satisfy `p`. */
  function CountIf<T>(s: seq<T>, p: T -> bool): (n: nat)
    ensures n <= |s|
  {
    if s == [] then 0 else (if p(s[0]) then 1 else 0) + CountIf(s[1..], p)
  }

  lemma {:induction false} CountIfAppend<T>(a: seq<T>, b: seq<T>, p: T -> bool)
    ensures CountIf(a + b, p) == CountIf(a, p) + CountIf(b, p)
  {
    if a == [] {
      assert a + b == b;
    } else {
      assert (a + b)[1..] == a[1..] + b;
      CountIfAppend(a[1..], b, p);
    }
  }

  lemma {:induction false} CountIfIsFilterLength<T>(s: seq<T>, p: T -> bool)
    ensures CountIf(s, p) == |Filter(s, p)|
  {
    if s != [] {
      CountIfIsFilterLength(s[1..], p);
    }
  }

  /** Two predicates that are never true together count at most |s| between them. */
  lemma {:induction false} CountIfDisjoint<T>(s: seq<T>, p: T -> bool, q: T -> bool)
    requires forall x :: !(p(x) && q(x))
    ensures CountIf(s, p) + CountIf(s, q) == CountIf(s, x => p(x) || q(x))
  {
    if s != [] {
      CountIfDisjoint(s[1..], p, q);
    }
  }

  lemma {:induction false} CountIfMono<T>(s: seq<T>, p: T -> bool, q: T -> bool)
    requires forall x :: p(x) ==> q(x)
    ensures CountIf(s, p) <= CountIf(s, q)
  {
    if s != [] {
      CountIfMono(s[1..], p, q);
    }
  }

  /** Every element passes: the count is the length. */
  lemma {:induction false} CountIfAll<T>(s: seq<T>, p: T -> bool)
    requires forall k :: 0 <= k < |s| ==> p(s[k])
    ensures CountIf(s, p) == |s|
  {
    if s != [] {
      CountIfAll(s[1..], p);
    }
  }

  /** No element passes: the count is 0. */
  lemma {:induction false} CountIfNone<T>(s: seq<T>, p: T -> bool)
    requires forall k :: 0 <= k < |s| ==> !p(s[k])
    ensures CountIf(s, p) == 0
  {
    if s != [] {
      CountIfNone(s[1..], p);
    }
  }

  /** No element occurs twice. */
  predicate Distinct<T(==)>(s: seq<T>) {
    forall i, j :: 0 <= i < j < |s| ==> s[i] != s[j]
  }

  /** Index of the first element satisfying `p`, as `Array.findIndex` does (None for -1). */
  function FirstIndex<T>(s: seq<T>, p: T -> bool): (r: Option<nat>)
    ensures r.Some? ==> r.value < |s| && p(s[r.value])
    ensures r.Some? ==> forall j :: 0 <= j < r.value ==> !p(s[j])
    ensures r.None? <==> forall j :: 0 <= j < |s| ==> !p(s[j])
  {
    if s == [] then None
    else if p(s[0]) then Some(0)
    else match FirstIndex(s[1..], p)
      case None => None
      case Some(i) => Some(i + 1)
  }

  /**
   * The first element that satisfies `p`, computed by a left-to-right scan as
   * `Array.find` / `findIndex` and a Python `for ... break` loop do.
   */
  method FindFirst<T>(s: seq<T>, p: T -> bool) returns (r: Option<nat>)
    ensures r == FirstIndex(s, p)
  {
    var i := 0;
    while i < |s|
      invariant 0 <= i <= |s|
      invariant forall j :: 0 <= j < i ==> !p(s[j])
    {
      if p(s[i]) {
        FirstIndexIs(s, p, i);
        return Some(i);
      }
      i := i + 1;
    }
    return None;
  }

  lemma FirstIndexIs<T>(s: seq<T>, p: T -> bool, i: nat)
    requires i < |s| && p(s[i])
    requires forall j :: 0 <= j < i ==> !p(s[j])
    ensures FirstIndex(s, p) == Some(i)
  {
    match FirstIndex(s, p)
    case None =>
    case Some(k) =>
  }

  /** Appending an element leaves an existing first match where it was. */
  lemma FirstIndexSnoc<T>(s: seq<T>, x: T, p: T -> bool)
    ensures FirstIndex(s + [x], p) ==
      (if FirstIndex(s, p).Some? then FirstIndex(s, p) else if p(x) then Some(|s|) else None)
  {
    var t := s + [x];
    assert forall j :: 0 <= j < |s| ==> t[j] == s[j];
    match FirstIndex(s, p)
    case Some(i) =>
      FirstIndexIs(t, p, i);
    case None =>
      if p(x) {
        FirstIndexIs(t, p, |s|);
      } else {
        assert forall j :: 0 <= j < |t| ==> !p(t[j]);
      }
  }

  /**
   * `s` with its first element that satisfies `p` passed through `f` (`find` and
   * an in-place write, or `findIndex` and an indexed assignment); `s` itself when no
   * element does.
   */
  function UpdateFirst<T>(s: seq<T>, p: T -> bool, f: T -> T): (r: seq<T>)
    ensures |r| == |s|
    ensures FirstIndex(s, p).None? ==> r == s
    ensures FirstIndex(s, p).Some? ==> r[FirstIndex(s, p).value] == f(s[FirstIndex(s, p).value])
    ensures forall j :: 0 <= j < |s| && (FirstIndex(s, p).None? || j != FirstIndex(s, p).value) ==> r[j] == s[j]
  {
    match FirstIndex(s, p)
    case None => s
    case Some(i) => s[i := f(s[i])]
  }

  /**
   * When `f` keeps what `p` looks at, the update leaves the first match where it was,
   * so a second identical update lands on the same element.
   */
  lemma UpdateFirstKeepsIndex<T>(s: seq<T>, p: T -> bool, f: T -> T)
    requires forall x :: p(x) ==> p(f(x))
    ensures FirstIndex(UpdateFirst(s, p, f), p) == FirstIndex(s, p)
  {
    match FirstIndex(s, p)
    case None =>
    case Some(i) =>
      FirstIndexIs(UpdateFirst(s, p, f), p, i);
  }

  /** Updating twice with an idempotent `f` is updating once. */
  lemma UpdateFirstIdempotent<T>(s: seq<T>, p: T -> bool, f: T -> T)
    requires forall x :: p(x) ==> p(f(x))
    requires forall x :: p(x) ==> f(f(x)) == f(x)
    ensures UpdateFirst(UpdateFirst(s, p, f), p, f) == UpdateFirst(s, p, f)
  {
    UpdateFirstKeepsIndex(s, p, f);
  }

  /** SQL `OFFSET skip LIMIT limit`: the rows from position `skip` on, at most `limit` of them. */
  function Page<T>(s: seq<T>, skip: nat, limit: nat): (r: seq<T>)
    ensures |r| <= limit
    ensures |r| == if skip >= |s| then 0 else Min(limit, |s| - skip)
    ensures forall k :: 0 <= k < |r| ==> r[k] == s[skip + k]
  {
    if skip >= |s| then [] else s[skip..skip + Min(limit, |s| - skip)]
  }

  lemma PageMembers<T>(s: seq<T>, skip: nat, limit: nat, x: T)
    requires x in Page(s, skip, limit)
    ensures x in s
  {
    var r := Page(s, skip, limit);
    var k :| 0 <= k < |r| && r[k] == x;
    assert s[skip + k] == x;
  }

  /** A page that starts at 0 and is at least as long as the input is the whole input. */
  lemma PageWhole<T>(s: seq<T>, limit: nat)
    requires limit >= |s|
    ensures Page(s, 0, limit) == s
  {
  }

  // ---------------------------------------------------------------------------
  // Stable sort by an integer key (ascending).

  ghost predicate SortedBy<T>(s: seq<T>, key: T -> int) {
    forall i, j :: 0 <= i < j < |s| ==> key(s[i]) <= key(s[j])
  }

  /** Insert `x` into `t` after every element whose key is at most `key(x)`. */
  function InsertBy<T>(t: seq<T>, x: T, key: T -> int): (r: seq<T>)
    ensures |r| == |t| + 1
    ensures multiset(r) == multiset(t) + multiset{x}
    decreases |t|
  {
    if t == [] then [x]
    else if key(t[|t| - 1]) <= key(x) then t + [x]
    else
      assert t == t[..|t| - 1] + [t[|t| - 1]];
      InsertBy(t[..|t| - 1], x, key) + [t[|t| - 1]]
  }

  /** Stable insertion sort, as Python's `sorted(s, key=key)`. */
  function SortBy<T>(s: seq<T>, key: T -> int): (r: seq<T>)
    ensures |r| == |s|
    ensures multiset(r) == multiset(s)
  {
    if s == [] then []
    else
      assert s == s[..|s| - 1] + [s[|s| - 1]];
      InsertBy(SortBy(s[..|s| - 1], key), s[|s| - 1], key)
  }

  /** Every element of the insertion's result is the new element or one of `t`'s. */
  lemma InsertByMembers<T>(t: seq<T>, x: T, key: T -> int)
    ensures forall k :: 0 <= k < |InsertBy(t, x, key)| ==>
      InsertBy(t, x, key)[k] == x || InsertBy(t, x, key)[k] in t
  {
    var r := InsertBy(t, x, key);
    forall k | 0 <= k < |r| ensures r[k] == x || r[k] in t {
      assert r[k] in multiset(r);
    }
  }

  lemma {:induction false} InsertBySorted<T>(t: seq<T>, x: T, key: T -> int)
    requires SortedBy(t, key)
    ensures SortedBy(InsertBy(t, x, key), key)
    decreases |t|
  {
    var r := InsertBy(t, x, key);
    if t == [] {
      assert r == [x];
    } else if key(t[|t| - 1]) <= key(x) {
      assert r == t + [x];
      forall i, j | 0 <= i < j < |r| ensures key(r[i]) <= key(r[j]) {
        if j < |t| {
          assert r[i] == t[i] && r[j] == t[j];
        } else {
          assert r[i] == t[i] && key(t[i]) <= key(t[|t| - 1]);
        }
      }
    } else {
      var last := t[|t| - 1];
      var u := t[..|t| - 1];
      assert SortedBy(u, key);
      InsertBySorted(u, x, key);
      InsertByMembers(u, x, key);
      var v := InsertBy(u, x, key);
      assert r == v + [last];
      forall k | 0 <= k < |v| ensures key(v[k]) <= key(last) {
        if v[k] != x {
          var m :| 0 <= m < |u| && u[m] == v[k];
          assert t[m] == v[k];
        }
      }
      forall i, j | 0 <= i < j < |r| ensures key(r[i]) <= key(r[j]) {
        if j < |v| {
          assert r[i] == v[i] && r[j] == v[j];
        } else {
          assert r[i] == v[i] && r[j] == last;
        }
      }
    }
  }

  /** The sort's result is ordered by `key` (and, by its contract, a permutation of `s`). */
  lemma {:induction false} SortBySorted<T>(s: seq<T>, key: T -> int)
    ensures SortedBy(SortBy(s, key), key)
  {
    if s != [] {
      SortBySorted(s[..|s| - 1], key);
      InsertBySorted(SortBy(s[..|s| - 1], key), s[|s| - 1], key);
    }
  }

  /**
   * The first `limit` elements of a sorted sequence are a smallest-key selection:
   * every element left out has a key at least that of every element kept.
   */
  lemma PageOfSortedIsTop<T>(s: seq<T>, key: T -> int, limit: nat, x: T, y: T)
    requires SortedBy(s, key)
    requires x in s && x !in Page(s, 0, limit) && y in Page(s, 0, limit)
    ensures key(y) <= key(x)
  {
    var r := Page(s, 0, limit);
    var k :| 0 <= k < |s| && s[k] == x;
    var i :| 0 <= i < |r| && r[i] == y;
    assert forall j :: 0 <= j < |r| ==> r[j] != x;
    assert s[i] == y;
  }

  /** A sort's output has the same elements as its input. */
  lemma SameElements<T>(a: seq<T>, b: seq<T>, x: T)
    requires multiset(a) == multiset(b)
    ensures x in a <==> x in b
  {
    assert x in a <==> x in multiset(a);
    assert x in b <==> x in multiset(b);
  }
}
