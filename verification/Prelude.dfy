/** Shared vocabulary: optional values, filtering, and Python's stable `sorted`. */
module Prelude {

  datatype Option<+T> = None | Some(value: T)

  datatype Result<+T, +E> = Ok(value: T) | Err(error: E)

  // A list cut to `maxItems` entries (all of them when negative), with the counts the tools report.
  datatype Limited<+T> = Limited(items: seq<T>, totalItems: nat, truncatedItems: nat)

  function Min(a: int, b: int): int { if a <= b then a else b }

  function Max(a: int, b: int): int { if a <= b then b else a }

  /** `items if limit < 0 else items[:limit]` */
  function Take<T>(s: seq<T>, limit: int): (r: seq<T>)
    ensures r <= s
    ensures |r| == if limit < 0 then |s| else Min(limit, |s|)
  {
    if limit < 0 || |s| <= limit then s else s[..limit]
  }

  lemma TakeNext<T>(s: seq<T>, k: nat)
    requires k < |s|
    ensures s[..k + 1] == s[..k] + [s[k]]
    ensures s[..|s|] == s
  {
  }

  function LimitItems<T>(s: seq<T>, maxItems: int): (r: Limited<T>)
    ensures |r.items| + r.truncatedItems == |s| == r.totalItems
    ensures r.items <= s
  {
    var limited := Take(s, maxItems);
    Limited(limited, |s|, Max(0, |s| - |limited|))
  }

  /** Entries satisfying `p`, in order. Recursion peels the last entry, as an appending loop does. */
  function Filter<T(!new)>(s: seq<T>, p: T -> bool): (r: seq<T>)
    ensures forall x :: x in r <==> x in s && p(x)
    ensures |r| <= |s|
  {
    if s == [] then []
    else
      var k := |s| - 1;
      assert s == s[..k] + [s[k]];
      Filter(s[..k], p) + (if p(s[k]) then [s[k]] else [])
  }

  lemma Assoc<T>(a: seq<T>, b: seq<T>, c: seq<T>)
    ensures a + b + c == a + (b + c)
  {
  }

  lemma {:induction false} FilterAppend<T(!new)>(a: seq<T>, b: seq<T>, p: T -> bool)
    ensures Filter(a + b, p) == Filter(a, p) + Filter(b, p)
  {
    if b == [] {
      assert a + b == a;
    } else {
      var k := |b| - 1;
      assert (a + b)[..|a + b| - 1] == a + b[..k];
      FilterAppend(a, b[..k], p);
      Assoc(Filter(a, p), Filter(b[..k], p), if p(b[k]) then [b[k]] else []);
    }
  }

  lemma {:induction false} FilterAll<T(!new)>(s: seq<T>, p: T -> bool)
    requires forall x | x in s :: p(x)
    ensures Filter(s, p) == s
  {
    if s != [] {
      var k := |s| - 1;
      assert s == s[..k] + [s[k]];
      FilterAll(s[..k], p);
    }
  }

  lemma FilterNone<T(!new)>(s: seq<T>, p: T -> bool)
    ensures Filter(s, p) == [] <==> forall x | x in s :: !p(x)
  {
  }

  /** An entry kept at the head of a list heads what is kept. */
  lemma {:induction false} FilterHead<T(!new)>(s: seq<T>, p: T -> bool)
    requires s != [] && p(s[0])
    ensures Filter(s, p) != [] && Filter(s, p)[0] == s[0]
  {
    if |s| > 1 {
      FilterHead(s[..|s| - 1], p);
    } else {
      assert s[..0] == [];
    }
  }

  lemma {:induction false} FilterSplits<T(!new)>(s: seq<T>, p: T -> bool, q: T -> bool)
    requires forall x | x in s :: q(x) == !p(x)
    ensures multiset(Filter(s, p)) + multiset(Filter(s, q)) == multiset(s)
    ensures |Filter(s, p)| + |Filter(s, q)| == |s|
  {
    if s != [] {
      var k := |s| - 1;
      assert s == s[..k] + [s[k]];
      FilterSplits(s[..k], p, q);
    }
  }

  lemma {:induction false} FilterMonotone<T(!new)>(s: seq<T>, p: T -> bool, q: T -> bool)
    requires forall x | x in s && p(x) :: q(x)
    ensures multiset(Filter(s, p)) <= multiset(Filter(s, q))
  {
    if s != [] {
      FilterMonotone(s[..|s| - 1], p, q);
    }
  }

  lemma {:induction false} FilterCong<T(!new)>(s: seq<T>, p: T -> bool, q: T -> bool)
    requires forall x | x in s :: p(x) == q(x)
    ensures Filter(s, p) == Filter(s, q)
  {
    if s != [] {
      FilterCong(s[..|s| - 1], p, q);
    }
  }

  function Map<T, U>(s: seq<T>, f: T -> U): (r: seq<U>)
    ensures |r| == |s| && forall i | 0 <= i < |s| :: r[i] == f(s[i])
  {
    seq(|s|, i requires 0 <= i < |s| => f(s[i]))
  }

  lemma MapSnoc<T, U>(s: seq<T>, x: T, f: T -> U)
    ensures Map(s + [x], f) == Map(s, f) + [f(x)]
  {
  }

  /** Mapping the kept entries keeps multiset inclusion when one filter implies the other. */
  lemma {:induction false} MapFilterMonotone<T(!new), U>(s: seq<T>, p: T -> bool, q: T -> bool, f: T -> U)
    requires forall x | x in s && p(x) :: q(x)
    ensures multiset(Map(Filter(s, p), f)) <= multiset(Map(Filter(s, q), f))
  {
    if s != [] {
      var front, last := s[..|s| - 1], s[|s| - 1];
      MapFilterMonotone(front, p, q, f);
      MapSnoc(Filter(front, p), last, f);
      MapSnoc(Filter(front, q), last, f);
      assert Filter(front, p) + [] == Filter(front, p) && Filter(front, q) + [] == Filter(front, q);
    }
  }

  lemma MapFilterSnoc<T(!new), U>(s: seq<T>, x: T, p: T -> bool, f: T -> U)
    ensures Map(Filter(s + [x], p), f) == Map(Filter(s, p), f) + (if p(x) then [f(x)] else [])
  {
  }

  lemma MapFilterAppend<T(!new), U>(a: seq<T>, b: seq<T>, p: T -> bool, f: T -> U)
    ensures Map(Filter(a + b, p), f) == Map(Filter(a, p), f) + Map(Filter(b, p), f)
  {
    FilterAppend(a, b, p);
  }

  lemma {:induction false} FilterMapCount<T(!new), U(!new)>(s: seq<T>, f: T -> U, q: U -> bool, r: T -> bool)
    requires forall x | x in s :: r(x) == q(f(x))
    ensures |Filter(Map(s, f), q)| == |Filter(s, r)|
  {
    if s != [] {
      var front, last := s[..|s| - 1], s[|s| - 1];
      FilterMapCount(front, f, q, r);
      assert s == front + [last];
      MapSnoc(front, last, f);
      FilterSnoc(Map(front, f), f(last), q);
    }
  }

  /** Two lists whose entries answer oppositely, place by place. */
  lemma {:induction false} FilterOpposites<T(!new), U(!new)>(a: seq<T>, b: seq<U>, p: T -> bool, q: U -> bool)
    requires |a| == |b| && forall i | 0 <= i < |a| :: p(a[i]) == !q(b[i])
    ensures |Filter(a, p)| + |Filter(b, q)| == |a|
  {
    if a != [] {
      var k := |a| - 1;
      FilterOpposites(a[..k], b[..k], p, q);
      FilterNext(a, k, p);
      FilterNext(b, k, q);
    }
  }

  lemma {:induction false} FilterFilter<T(!new)>(s: seq<T>, p: T -> bool, q: T -> bool, r: T -> bool)
    requires forall x | x in s :: r(x) == (p(x) && q(x))
    ensures Filter(Filter(s, p), q) == Filter(s, r)
  {
    if s != [] {
      var front, last := s[..|s| - 1], s[|s| - 1];
      FilterFilter(front, p, q, r);
      FilterSnoc(Filter(front, p), last, q);
      var kept := Filter(front, p);
      assert kept + [] == kept && Filter(front, r) + [] == Filter(front, r);
    }
  }

  // ---- dictionary comprehensions ----

  /** `{key(x): x for x in s}`: a later entry replaces an earlier one with the same key. */
  function LastBy<K, T>(s: seq<T>, key: T -> K): map<K, T> {
    if s == [] then map[] else LastBy(s[..|s| - 1], key)[key(s[|s| - 1]) := s[|s| - 1]]
  }

  ghost predicate IsLastWith<K(!new), T>(s: seq<T>, key: T -> K, k: K, i: nat) {
    i < |s| && key(s[i]) == k && forall j | i < j < |s| :: key(s[j]) != k
  }

  /** A lookup finds the last entry carrying the key, and only keys some entry carries. */
  lemma {:induction false} LastByLookup<K(!new), T(!new)>(s: seq<T>, key: T -> K, k: K)
    ensures k in LastBy(s, key) <==> exists x | x in s :: key(x) == k
    ensures k in LastBy(s, key) ==> exists i: nat :: IsLastWith(s, key, k, i) && LastBy(s, key)[k] == s[i]
  {
    if s != [] {
      var n := |s| - 1;
      var front := s[..n];
      assert s == front + [s[n]];
      LastByLookup(front, key, k);
      if key(s[n]) == k {
        assert IsLastWith(s, key, k, n);
      } else if k in LastBy(front, key) {
        var i: nat :| IsLastWith(front, key, k, i) && LastBy(front, key)[k] == front[i];
        assert IsLastWith(s, key, k, i);
      }
    }
  }

  /** With distinct keys every entry is found under its own key. */
  lemma LastByDistinct<K(!new), T(!new)>(s: seq<T>, key: T -> K, x: T)
    requires x in s && forall i, j | 0 <= i < j < |s| :: key(s[i]) != key(s[j])
    ensures key(x) in LastBy(s, key) && LastBy(s, key)[key(x)] == x
  {
    LastByLookup(s, key, key(x));
  }

  // ---- stable sorting ----

  ghost predicate TotalPreorder<T(!new)>(le: (T, T) -> bool) {
    && (forall x, y :: le(x, y) || le(y, x))
    && (forall x, y, z :: le(x, y) && le(y, z) ==> le(x, z))
  }

  ghost predicate Ordered<T>(s: seq<T>, le: (T, T) -> bool) {
    forall i, j | 0 <= i < j < |s| :: le(s[i], s[j])
  }

  /** Places `x` behind every entry that is not after it, so equal entries keep their order. */
  function Insert<T>(s: seq<T>, x: T, le: (T, T) -> bool): (r: seq<T>)
    ensures multiset(r) == multiset(s) + multiset{x}
  {
    if s == [] then [x]
    else
      var k := |s| - 1;
      assert s == s[..k] + [s[k]];
      if le(s[k], x) then s + [x] else Insert(s[..k], x, le) + [s[k]]
  }

  /** Python's `sorted`: the order `le` compares keys, a reversed sort uses the flipped comparison. */
  function Sort<T(!new)>(s: seq<T>, le: (T, T) -> bool): (r: seq<T>)
    ensures multiset(r) == multiset(s)
    ensures |r| == |s|
    ensures forall x :: x in r <==> x in s
  {
    if s == [] then []
    else
      var k := |s| - 1;
      assert s == s[..k] + [s[k]];
      var r := Insert(Sort(s[..k], le), s[k], le);
      SameMultiset(r, s);
      r
  }

  lemma SameMultiset<T(!new)>(a: seq<T>, b: seq<T>)
    requires multiset(a) == multiset(b)
    ensures |a| == |b|
    ensures forall x :: x in a <==> x in b
  {
    assert |multiset(a)| == |a| && |multiset(b)| == |b|;
    forall x ensures x in a <==> x in b {
      assert x in multiset(a) <==> x in multiset(b);
    }
  }

  lemma {:induction false} InsertOrdered<T(!new)>(s: seq<T>, x: T, le: (T, T) -> bool)
    requires TotalPreorder(le) && Ordered(s, le)
    ensures Ordered(Insert(s, x, le), le)
  {
    if s != [] {
      var k := |s| - 1;
      if !le(s[k], x) {
        InsertOrdered(s[..k], x, le);
        var r := Insert(s[..k], x, le);
        SameMultiset(r, s[..k] + [x]);
        forall i | 0 <= i < |r| ensures le(r[i], s[k]) {
          assert r[i] in s[..k] + [x];
        }
      }
    }
  }

  lemma {:induction false} SortOrdered<T(!new)>(s: seq<T>, le: (T, T) -> bool)
    requires TotalPreorder(le)
    ensures Ordered(Sort(s, le), le)
  {
    if s != [] {
      SortOrdered(s[..|s| - 1], le);
      InsertOrdered(Sort(s[..|s| - 1], le), s[|s| - 1], le);
    }
  }

  lemma FilterSnoc<T(!new)>(s: seq<T>, x: T, p: T -> bool)
    ensures Filter(s + [x], p) == Filter(s, p) + (if p(x) then [x] else [])
  {
    assert (s + [x])[..|s|] == s;
  }

  lemma SwapEmpty<T>(a: seq<T>, b: seq<T>, c: seq<T>)
    requires b == [] || c == []
    ensures a + b + c == a + c + b
  {
  }

  /** One step of a loop that appends the entries it keeps. */
  lemma FilterNext<T(!new)>(s: seq<T>, k: nat, p: T -> bool)
    requires k < |s|
    ensures Filter(s[..k + 1], p) == if p(s[k]) then Filter(s[..k], p) + [s[k]] else Filter(s[..k], p)
    ensures s[..|s|] == s
  {
    assert s[..k + 1][..k] == s[..k];
    assert Filter(s[..k], p) + [] == Filter(s[..k], p);
  }

  function Single<T>(x: T, p: T -> bool): seq<T> { if p(x) then [x] else [] }

  lemma {:induction false} InsertStable<T(!new)>(s: seq<T>, x: T, le: (T, T) -> bool, p: T -> bool)
    requires p(x) ==> forall i | 0 <= i < |s| && p(s[i]) :: le(s[i], x)
    ensures Filter(Insert(s, x, le), p) == Filter(s, p) + Single(x, p)
  {
    FilterSnoc(s, x, p);
    if s == [] {
      assert s + [x] == [x];
    } else if !le(s[|s| - 1], x) {
      var front, last := s[..|s| - 1], s[|s| - 1];
      forall i | 0 <= i < |front| && p(front[i]) && p(x) ensures le(front[i], x) {
        assert front[i] == s[i];
      }
      InsertStable(front, x, le, p);
      FilterSnoc(Insert(front, x, le), last, p);
      SwapEmpty(Filter(front, p), Single(x, p), Single(last, p));
    }
  }

  /** Stability: entries of any class of equals come out in the order they went in. */
  lemma {:induction false} SortStable<T(!new)>(s: seq<T>, le: (T, T) -> bool, p: T -> bool)
    requires forall i, j | 0 <= i < j < |s| && p(s[i]) && p(s[j]) :: le(s[i], s[j])
    ensures Filter(Sort(s, le), p) == Filter(s, p)
  {
    if s != [] {
      var k := |s| - 1;
      SortStable(s[..k], le, p);
      var sorted := Sort(s[..k], le);
      forall i | 0 <= i < |sorted| && p(sorted[i]) && p(s[k]) ensures le(sorted[i], s[k]) {
        assert sorted[i] in s[..k];
        var j :| 0 <= j < k && s[j] == sorted[i];
      }
      InsertStable(sorted, s[k], le, p);
    }
  }

  lemma {:induction false} FilterMultiset<T(!new)>(s: seq<T>, p: T -> bool, x: T)
    ensures multiset(Filter(s, p))[x] == if p(x) then multiset(s)[x] else 0
  {
    if s != [] {
      assert s == s[..|s| - 1] + [s[|s| - 1]];
      FilterMultiset(s[..|s| - 1], p, x);
    }
  }

  lemma SortFilterCount<T(!new)>(s: seq<T>, le: (T, T) -> bool, p: T -> bool)
    ensures multiset(Filter(Sort(s, le), p)) == multiset(Filter(s, p))
    ensures |Filter(Sort(s, le), p)| == |Filter(s, p)|
  {
    forall x ensures multiset(Filter(Sort(s, le), p))[x] == multiset(Filter(s, p))[x] {
      FilterMultiset(s, p, x);
      FilterMultiset(Sort(s, le), p, x);
    }
    SameMultiset(Filter(Sort(s, le), p), Filter(s, p));
  }

  lemma PrefixBefore<T(!new)>(sorted: seq<T>, n: nat, le: (T, T) -> bool, x: T, y: T)
    requires n <= |sorted| && Ordered(sorted, le) && y in sorted[..n] && x in sorted[n..]
    ensures le(y, x)
  {
    var i :| 0 <= i < n && sorted[..n][i] == y;
    var j :| 0 <= j < |sorted| - n && sorted[n..][j] == x;
    assert sorted[i] == y && sorted[n + j] == x;
  }

  /** A cut of a sorted list is its first entries: in order, none left out that belongs strictly before one kept. */
  lemma TakeSorted<T(!new)>(s: seq<T>, le: (T, T) -> bool, limit: int)
    requires TotalPreorder(le)
    ensures var r := Take(Sort(s, le), limit);
      && multiset(r) <= multiset(s)
      && Ordered(r, le)
      && forall x, y | x in multiset(s) - multiset(r) && y in r :: le(y, x)
  {
    SortOrdered(s, le);
    var sorted := Sort(s, le);
    var n := |Take(sorted, limit)|;
    assert sorted == sorted[..n] + sorted[n..];
    assert multiset(s) == multiset(sorted[..n]) + multiset(sorted[n..]);
    forall x, y | x in multiset(s) - multiset(sorted[..n]) && y in sorted[..n] ensures le(y, x) {
      PrefixBefore(sorted, n, le, x, y);
    }
  }

  lemma FilterPrefix<T(!new)>(s: seq<T>, n: nat, p: T -> bool)
    requires n <= |s|
    ensures Filter(s[..n], p) <= Filter(s, p)
  {
    assert s == s[..n] + s[n..];
    FilterAppend(s[..n], s[n..], p);
  }

  lemma FilterAt<T(!new)>(s: seq<T>, n: nat, p: T -> bool)
    requires n < |s|
    ensures Filter(s[..n], p) <= Filter(s, p)
    ensures p(s[n]) ==> Filter(s[..n], p) + [s[n]] <= Filter(s, p)
  {
    FilterPrefix(s, n, p);
    FilterPrefix(s, n + 1, p);
    FilterNext(s, n, p);
  }

  /** Entries of a class of equals are cut from the end, in the order they went in. */
  lemma TakeStable<T(!new)>(s: seq<T>, le: (T, T) -> bool, limit: int, p: T -> bool)
    requires forall i, j | 0 <= i < j < |s| && p(s[i]) && p(s[j]) :: le(s[i], s[j])
    ensures Filter(Take(Sort(s, le), limit), p) <= Filter(s, p)
  {
    SortStable(s, le, p);
    FilterPrefix(Sort(s, le), |Take(Sort(s, le), limit)|, p);
  }

  ghost predicate Distinct<T>(s: seq<T>) {
    forall i, j | 0 <= i < j < |s| :: s[i] != s[j]
  }

  lemma {:induction false} DistinctMultiset<T>(s: seq<T>)
    ensures Distinct(s) <==> forall x | x in s :: multiset(s)[x] == 1
  {
    if s != [] {
      var k := |s| - 1;
      assert s == s[..k] + [s[k]];
      DistinctMultiset(s[..k]);
      assert multiset(s) == multiset(s[..k]) + multiset{s[k]};
      if Distinct(s) {
        forall x | x in s ensures multiset(s)[x] == 1 {
          assert s[k] !in s[..k];
        }
      }
      if forall x | x in s :: multiset(s)[x] == 1 {
        assert multiset(s)[s[k]] == 1;
        assert s[k] !in multiset(s[..k]);
        assert forall x | x in s[..k] :: x in s;
      }
    }
  }

  lemma SortDistinct<T(!new)>(s: seq<T>, le: (T, T) -> bool)
    ensures Distinct(Sort(s, le)) <==> Distinct(s)
  {
    DistinctMultiset(s);
    DistinctMultiset(Sort(s, le));
  }

  lemma FilterDistinct<T(!new)>(s: seq<T>, p: T -> bool)
    requires Distinct(s)
    ensures Distinct(Filter(s, p))
  {
  }

  lemma {:induction false} SubsetSize<T>(a: set<T>, b: set<T>)
    requires a <= b
    ensures |a| <= |b|
    decreases a
  {
    if a != {} {
      var x :| x in a;
      SubsetSize(a - {x}, b - {x});
    }
  }
}
