/** Queryset and list operations as functions over sequences of rows:
    filtering, counting, summing, slicing, ordering and ranking. */
module Seqs {
  import opened Strings

  function Min(a: int, b: int): int { if a <= b then a else b }

  /** A queryset `.filter(...)` or a comprehension `[x for x in s if p(x)]`:
      the elements satisfying `p`, in their original order. */
  function Filter<T(!new)>(s: seq<T>, p: T -> bool): (r: seq<T>)
    ensures |r| <= |s|
    ensures forall x :: x in r <==> x in s && p(x)
    ensures multiset(r) <= multiset(s)
    decreases |s|
  {
    if s == [] then []
    else
      assert s == [s[0]] + s[1..];
      if p(s[0]) then [s[0]] + Filter(s[1..], p) else Filter(s[1..], p)
  }

  lemma {:induction false} FilterConcat<T(!new)>(a: seq<T>, b: seq<T>, p: T -> bool)
    ensures Filter(a + b, p) == Filter(a, p) + Filter(b, p)
    decreases |a|
  {
    if a == [] {
      assert a + b == b;
    } else {
      assert (a + b)[1..] == a[1..] + b;
      FilterConcat(a[1..], b, p);
    }
  }

  /** Filtering one more row appends it exactly when it matches. */
  lemma FilterSnoc<T(!new)>(s: seq<T>, x: T, p: T -> bool)
    ensures Filter(s + [x], p) == Filter(s, p) + (if p(x) then [x] else [])
  {
    FilterConcat(s, [x], p);
    assert [x] == [x] + [];
  }

  /** A row added to a table with a per-owner filter shows up in its
      owner's view, at the end, and in no other owner's view. */
  lemma AddedRowScoped<T(!new)>(s: seq<T>, x: T, owned: int -> (T -> bool), owner: int)
    requires owned(owner)(x)
    requires forall v :: v != owner ==> !owned(v)(x)
    ensures Filter(s + [x], owned(owner)) == Filter(s, owned(owner)) + [x]
    ensures forall v :: v != owner ==> Filter(s + [x], owned(v)) == Filter(s, owned(v))
  {
    FilterSnoc(s, x, owned(owner));
    forall v | v != owner
      ensures Filter(s + [x], owned(v)) == Filter(s, owned(v))
    {
      FilterSnoc(s, x, owned(v));
    }
  }

  /** A weaker test keeps at least as many rows. */
  lemma {:induction false} FilterWeaker<T(!new)>(s: seq<T>, p: T -> bool, q: T -> bool)
    requires forall x :: x in s && p(x) ==> q(x)
    ensures |Filter(s, p)| <= |Filter(s, q)|
    decreases |s|
  {
    if s != [] {
      assert forall x :: x in s[1..] ==> x in s;
      FilterWeaker(s[1..], p, q);
    }
  }

  /** The sum over the matching rows is the sum over all rows with the
      others counted as zero. */
  lemma {:induction false} SumOfFilter<T(!new)>(s: seq<T>, p: T -> bool, f: T -> int, g: T -> int)
    requires forall x :: x in s ==> g(x) == if p(x) then f(x) else 0
    ensures SumOf(Filter(s, p), f) == SumOf(s, g)
    decreases |s|
  {
    if s != [] {
      assert forall x :: x in s[1..] ==> x in s;
      SumOfFilter(s[1..], p, f, g);
      assert s[0] in s;
      if p(s[0]) {
        SumOfCons(s[0], Filter(s[1..], p), f);
      }
    }
  }

  /** A sum over one more row at the head adds that row's value. */
  lemma SumOfCons<T>(x: T, s: seq<T>, f: T -> int)
    ensures SumOf([x] + s, f) == f(x) + SumOf(s, f)
  {
    assert ([x] + s)[1..] == s;
  }

  /** A test and its complement split the rows between them. */
  lemma {:induction false} FilterComplement<T(!new)>(s: seq<T>, p: T -> bool, q: T -> bool)
    requires forall x :: x in s ==> (q(x) <==> !p(x))
    ensures multiset(Filter(s, p)) + multiset(Filter(s, q)) == multiset(s)
    ensures |Filter(s, p)| + |Filter(s, q)| == |s|
    decreases |s|
  {
    if s != [] {
      var rest := s[1..];
      assert forall x :: x in rest ==> x in s;
      FilterComplement(rest, p, q);
      var fp, fq := Filter(rest, p), Filter(rest, q);
      assert s == [s[0]] + rest;
      assert s[0] in s;
      if p(s[0]) {
        assert Filter(s, p) == [s[0]] + fp && Filter(s, q) == fq;
      } else {
        assert Filter(s, q) == [s[0]] + fq && Filter(s, p) == fp;
      }
      ConsSplit(s[0], fp, fq, rest);
    }
  }

  /** Putting one more element at the head of either part of a split puts
      it at the head of the whole. */
  lemma ConsSplit<T>(x: T, a: seq<T>, b: seq<T>, whole: seq<T>)
    requires multiset(a) + multiset(b) == multiset(whole)
    ensures multiset([x] + a) + multiset(b) == multiset([x] + whole)
    ensures multiset(a) + multiset([x] + b) == multiset([x] + whole)
  {
    assert multiset([x] + a) == multiset([x]) + multiset(a);
    assert multiset([x] + b) == multiset([x]) + multiset(b);
    assert multiset([x] + whole) == multiset([x]) + multiset(whole);
  }

  /** A filter no row passes keeps nothing. */
  lemma {:induction false} FilterNone<T(!new)>(s: seq<T>, p: T -> bool)
    requires forall x :: x in s ==> !p(x)
    ensures Filter(s, p) == []
    decreases |s|
  {
    if s != [] {
      assert forall x :: x in s[1..] ==> x in s;
      FilterNone(s[1..], p);
    }
  }

  /** A filter every row passes keeps the table as it is. */
  lemma {:induction false} FilterAll<T(!new)>(s: seq<T>, p: T -> bool)
    requires forall x :: x in s ==> p(x)
    ensures Filter(s, p) == s
    decreases |s|
  {
    if s != [] {
      assert forall x :: x in s[1..] ==> x in s;
      FilterAll(s[1..], p);
      assert s == [s[0]] + s[1..];
    }
  }

  /** When the rows matching `p` are exactly those matching one of two
      disjoint tests, the sum over `p` is the two sums added. */
  lemma {:induction false} SumOfFilterSplit<T(!new)>(s: seq<T>, p: T -> bool, q: T -> bool, r: T -> bool, f: T -> int)
    requires forall x :: x in s ==> (p(x) <==> q(x) || r(x)) && !(q(x) && r(x))
    ensures SumOf(Filter(s, p), f) == SumOf(Filter(s, q), f) + SumOf(Filter(s, r), f)
    decreases |s|
  {
    if s != [] {
      var rest := s[1..];
      assert forall x :: x in rest ==> x in s;
      SumOfFilterSplit(rest, p, q, r, f);
      var x := s[0];
      assert x in s;
      if p(x) {
        SumOfCons(x, Filter(rest, p), f);
      }
      if q(x) {
        SumOfCons(x, Filter(rest, q), f);
      }
      if r(x) {
        SumOfCons(x, Filter(rest, r), f);
      }
    }
  }

  /** `.count()` of a filtered queryset. */
  function CountOf<T(!new)>(s: seq<T>, p: T -> bool): nat
  {
    |Filter(s, p)|
  }

  /** Counting a non-empty table: its first row, then the rest. */
  lemma CountOfCons<T(!new)>(s: seq<T>, p: T -> bool)
    requires s != []
    ensures CountOf(s, p) == (if p(s[0]) then 1 else 0) + CountOf(s[1..], p)
  {
  }

  /** Counting over one more row adds one exactly when that row matches. */
  lemma CountOfSnoc<T(!new)>(s: seq<T>, x: T, p: T -> bool)
    ensures CountOf(s + [x], p) == CountOf(s, p) + (if p(x) then 1 else 0)
  {
    FilterConcat(s, [x], p);
    assert [x] == [x] + [];
  }

  /** `aggregate(Sum(...))` followed by `or 0`, or `sum(f(x) for x in s)`. */
  function SumOf<T>(s: seq<T>, f: T -> int): int
    decreases |s|
  {
    if s == [] then 0 else f(s[0]) + SumOf(s[1..], f)
  }

  lemma {:induction false} SumConcat<T>(a: seq<T>, b: seq<T>, f: T -> int)
    ensures SumOf(a + b, f) == SumOf(a, f) + SumOf(b, f)
    decreases |a|
  {
    if a == [] {
      assert a + b == b;
    } else {
      assert (a + b)[1..] == a[1..] + b;
      SumConcat(a[1..], b, f);
    }
  }

  /** Summing a difference term by term is the difference of the sums. */
  lemma {:induction false} SumOfDifference<T>(s: seq<T>, f: T -> int, g: T -> int, h: T -> int)
    requires forall x :: x in s ==> h(x) == f(x) - g(x)
    ensures SumOf(s, h) == SumOf(s, f) - SumOf(s, g)
    decreases |s|
  {
    if s != [] {
      assert forall x :: x in s[1..] ==> x in s;
      SumOfDifference(s[1..], f, g, h);
    }
  }

  /** A sum of positive terms is positive unless empty. */
  lemma {:induction false} PositiveSum<T>(s: seq<T>, f: T -> int)
    requires forall x :: x in s ==> f(x) > 0
    ensures SumOf(s, f) >= 0
    ensures s != [] ==> SumOf(s, f) > 0
    decreases |s|
  {
    if s != [] {
      assert forall x :: x in s[1..] ==> x in s;
      PositiveSum(s[1..], f);
    }
  }

  function Map<T, U>(s: seq<T>, f: T -> U): (r: seq<U>)
    ensures |r| == |s|
    ensures forall i :: 0 <= i < |s| ==> r[i] == f(s[i])
  {
    seq(|s|, i requires 0 <= i < |s| => f(s[i]))
  }

  /** A slice `[:n]` with a non-negative bound. */
  function Take<T>(s: seq<T>, n: nat): (r: seq<T>)
    ensures |r| == Min(n, |s|) && r == s[..|r|]
  {
    if n <= |s| then s[..n] else s
  }

  /** Python's `s[:stop]` for any integer `stop`; a negative `stop` counts
      from the end. */
  function SliceTo<T>(s: seq<T>, stop: int): (r: seq<T>)
    ensures |r| <= |s| && r == s[..|r|]
    ensures stop >= 0 ==> |r| == Min(stop, |s|)
    ensures stop < 0 ==> |r| == if |s| + stop >= 0 then |s| + stop else 0
  {
    if stop >= 0 then Take(s, stop) else if |s| + stop >= 0 then s[..|s| + stop] else []
  }

  predicate NoDuplicates<T(==)>(s: seq<T>)
  {
    forall i, j :: 0 <= i < j < |s| ==> s[i] != s[j]
  }

  lemma {:induction false} NoDuplicatesMultiplicity<T>(s: seq<T>, x: T)
    requires NoDuplicates(s)
    ensures multiset(s)[x] <= 1
    decreases |s|
  {
    if s != [] {
      var t := s[..|s| - 1];
      assert s == t + [s[|s| - 1]];
      assert NoDuplicates(t);
      NoDuplicatesMultiplicity(t, x);
      if s[|s| - 1] == x {
        assert x !in t;
      }
    }
  }

  lemma {:induction false} AllEqualCount<T>(r: seq<T>, e: T)
    requires forall x :: x in r ==> x == e
    ensures multiset(r)[e] == |r|
    decreases |r|
  {
    if r != [] {
      var init := r[..|r| - 1];
      assert r == init + [r[|r| - 1]];
      assert forall x :: x in init ==> x in r;
      assert r[|r| - 1] in r;
      AllEqualCount(init, e);
    }
  }

  /** A duplicate-free sequence of copies of one value has at most one
      element. */
  lemma AtMostOne<T>(r: seq<T>, e: T)
    requires NoDuplicates(r)
    requires forall x :: x in r ==> x == e
    ensures |r| <= 1
  {
    AllEqualCount(r, e);
    NoDuplicatesMultiplicity(r, e);
  }

  /** Taking some of the rows of a duplicate-free table gives no duplicates. */
  lemma SubMultisetNoDuplicates<T>(s: seq<T>, r: seq<T>)
    requires NoDuplicates(s) && multiset(r) <= multiset(s)
    ensures NoDuplicates(r)
  {
    forall i, j | 0 <= i < j < |r|
      ensures r[i] != r[j]
    {
      if r[i] == r[j] {
        var x := r[i];
        assert r == r[..j] + [r[j]] + r[j + 1..];
        assert x in r[..j];
        assert multiset(r)[x] >= 2;
        NoDuplicatesMultiplicity(s, x);
        assert false;
      }
    }
  }

  // ---- ordering by a numeric key, largest first: order_by('-field') and
  // ---- sorted(..., reverse=True)

  predicate SortedDesc<T>(s: seq<T>, key: T -> real)
  {
    forall i, j :: 0 <= i < j < |s| ==> key(s[i]) >= key(s[j])
  }

  lemma HeadBeforeInserted<T>(h: T, t: seq<T>, x: T, rest: seq<T>, key: T -> real)
    requires SortedDesc([h] + t, key) && SortedDesc(rest, key)
    requires key(x) < key(h)
    requires multiset(rest) == multiset(t) + multiset{x}
    ensures SortedDesc([h] + rest, key)
  {
    forall j | 0 <= j < |rest|
      ensures key(h) >= key(rest[j])
    {
      var y := rest[j];
      assert y in multiset(rest);
      if y != x {
        assert y in multiset(t);
        assert y in t;
        var m :| 0 <= m < |t| && t[m] == y;
        assert ([h] + t)[0] == h && ([h] + t)[m + 1] == y;
      }
    }
  }

  /** Inserts `x` before the first element that does not outrank it, so an
      element placed earlier stays ahead of its equals (a stable sort). */
  function InsertDesc<T>(x: T, s: seq<T>, key: T -> real): (r: seq<T>)
    ensures |r| == |s| + 1 && multiset(r) == multiset(s) + multiset{x}
    ensures SortedDesc(s, key) ==> SortedDesc(r, key)
    decreases |s|
  {
    if s == [] || key(s[0]) <= key(x) then [x] + s
    else
      var rest := InsertDesc(x, s[1..], key);
      assert s == [s[0]] + s[1..];
      if SortedDesc(s, key) then
        HeadBeforeInserted(s[0], s[1..], x, rest, key);
        [s[0]] + rest
      else [s[0]] + rest
  }

  /** Inserting a row that a filter drops leaves the filtered view as it
      was; inserting one it keeps adds that row to the view, and into a
      sorted table it lands where inserting it into the view would put it. */
  lemma {:induction false} FilterInsertDesc<T(!new)>(x: T, s: seq<T>, key: T -> real, p: T -> bool)
    ensures !p(x) ==> Filter(InsertDesc(x, s, key), p) == Filter(s, p)
    ensures p(x) && SortedDesc(s, key) ==> Filter(InsertDesc(x, s, key), p) == InsertDesc(x, Filter(s, p), key)
    decreases |s|
  {
    var r := InsertDesc(x, s, key);
    if s == [] || key(s[0]) <= key(x) {
      assert r[1..] == s;
      var f := Filter(s, p);
      if p(x) && SortedDesc(s, key) && f != [] {
        assert f[0] in s;
        var m :| 0 <= m < |s| && s[m] == f[0];
        assert key(f[0]) <= key(s[0]);
      }
    } else {
      assert s == [s[0]] + s[1..];
      var rest := InsertDesc(x, s[1..], key);
      assert r == [s[0]] + rest && r[1..] == rest;
      FilterInsertDesc(x, s[1..], key, p);
      if p(x) && SortedDesc(s, key) {
        assert SortedDesc(s[1..], key);
        var f := Filter(s[1..], p);
        if p(s[0]) {
          assert ([s[0]] + f)[1..] == f;
        }
      }
    }
  }

  /** A stable insertion sort, largest key first. */
  function SortDesc<T>(s: seq<T>, key: T -> real): (r: seq<T>)
    ensures |r| == |s| && multiset(r) == multiset(s)
    ensures SortedDesc(r, key)
    decreases |s|
  {
    if s == [] then []
    else
      assert s == [s[0]] + s[1..];
      InsertDesc(s[0], SortDesc(s[1..], key), key)
  }

  /** A row inserted by key into a table with a per-owner filter lands in
      its owner's view as if inserted there, and in no other owner's view. */
  lemma InsertedRowScoped<T(!new)>(s: seq<T>, x: T, key: T -> real, owned: int -> (T -> bool), owner: int)
    requires owned(owner)(x)
    requires forall v :: v != owner ==> !owned(v)(x)
    ensures SortedDesc(s, key) ==> Filter(InsertDesc(x, s, key), owned(owner)) == InsertDesc(x, Filter(s, owned(owner)), key)
    ensures forall v :: v != owner ==> Filter(InsertDesc(x, s, key), owned(v)) == Filter(s, owned(v))
  {
    FilterInsertDesc(x, s, key, owned(owner));
    forall v | v != owner
      ensures Filter(InsertDesc(x, s, key), owned(v)) == Filter(s, owned(v))
    {
      FilterInsertDesc(x, s, key, owned(v));
    }
  }

  /** Any prefix of a sequence sorted largest first holds the best elements:
      whatever lies beyond the prefix ranks no higher than what is in it. */
  lemma PrefixOfSortedIsTop<T>(sorted: seq<T>, key: T -> real, k: nat)
    requires SortedDesc(sorted, key) && k <= |sorted|
    ensures forall x, y :: x in sorted && x !in sorted[..k] && y in sorted[..k] ==> key(x) <= key(y)
  {
    forall x, y | x in sorted && x !in sorted[..k] && y in sorted[..k]
      ensures key(x) <= key(y)
    {
      var i :| 0 <= i < |sorted| && sorted[i] == x;
      var j :| 0 <= j < k && sorted[..k][j] == y;
    }
  }

  /** Keeping some rows of a table sorted largest first keeps it sorted:
      a filter on a queryset preserves its ordering. */
  lemma {:induction false} FilterSorted<T(!new)>(s: seq<T>, p: T -> bool, key: T -> real)
    requires SortedDesc(s, key)
    ensures SortedDesc(Filter(s, p), key)
    decreases |s|
  {
    if s != [] {
      var rest := Filter(s[1..], p);
      assert SortedDesc(s[1..], key) by {
        forall i, j | 0 <= i < j < |s[1..]|
          ensures key(s[1..][i]) >= key(s[1..][j])
        {
          assert s[1..][i] == s[i + 1] && s[1..][j] == s[j + 1];
        }
      }
      FilterSorted(s[1..], p, key);
      if p(s[0]) {
        var r := [s[0]] + rest;
        forall i, j | 0 <= i < j < |r|
          ensures key(r[i]) >= key(r[j])
        {
          if i == 0 {
            assert r[j] in s[1..];
            var k :| 0 <= k < |s[1..]| && s[1..][k] == r[j];
            assert s[k + 1] == r[j];
          } else {
            assert r[i] == rest[i - 1] && r[j] == rest[j - 1];
          }
        }
      }
    }
  }

  /** The first `n` rows of a table sorted largest first are its top `n`:
      a slice `[:n]` of an ordered queryset. */
  lemma TakeOfSortedIsTop<T>(s: seq<T>, key: T -> real, n: nat)
    requires SortedDesc(s, key)
    ensures IsTopN(Take(s, n), s, key, n)
  {
    var k := Min(n, |s|);
    PrefixOfSortedIsTop(s, key, k);
    PrefixMultiset(s, k);
  }

  lemma PrefixMultiset<T>(s: seq<T>, k: nat)
    requires k <= |s|
    ensures multiset(s[..k]) <= multiset(s)
  {
    assert s == s[..k] + s[k..];
  }

  /** `r` is what `order_by('-key')[:n]` may return from `s`: at most `n`
      of its elements, best first, and nothing left out outranks anything
      kept. */
  ghost predicate IsTopN<T>(r: seq<T>, s: seq<T>, key: T -> real, n: nat)
  {
    && |r| == Min(n, |s|)
    && multiset(r) <= multiset(s)
    && SortedDesc(r, key)
    && forall x, y :: x in s && x !in r && y in r ==> key(x) <= key(y)
  }

  /** What a selection keeps comes from the table it was drawn from. */
  lemma KeptRowsFromSource<T>(r: seq<T>, s: seq<T>)
    requires multiset(r) <= multiset(s)
    ensures forall x :: x in r ==> x in s
  {
    forall x | x in r
      ensures x in s
    {
      assert x in multiset(r);
    }
  }

  /** `order_by('-key')[:n]`, ties kept in table order. */
  function TopN<T(!new)>(s: seq<T>, key: T -> real, n: nat): (r: seq<T>)
    ensures IsTopN(r, s, key, n)
  {
    var sorted := SortDesc(s, key);
    var k := Min(n, |s|);
    PrefixOfSortedIsTop(sorted, key, k);
    PrefixMultiset(sorted, k);
    assert forall x :: x in s <==> x in multiset(sorted);
    Take(sorted, n)
  }

  // ---- ordering by a text key, smallest first: order_by('field')

  predicate SortedByText<T>(s: seq<T>, key: T -> string)
  {
    forall i, j :: 0 <= i < j < |s| ==> StrLeq(key(s[i]), key(s[j]))
  }

  lemma ConsSortedByText<T>(x: T, s: seq<T>, key: T -> string)
    requires SortedByText(s, key)
    requires s != [] ==> StrLeq(key(x), key(s[0]))
    ensures SortedByText([x] + s, key)
  {
    forall j | 0 <= j < |s|
      ensures StrLeq(key(x), key(s[j]))
    {
      if j > 0 {
        StrLeqTransitive(key(x), key(s[0]), key(s[j]));
      }
    }
  }

  lemma HeadBeforeInsertedByText<T>(h: T, t: seq<T>, x: T, rest: seq<T>, key: T -> string)
    requires SortedByText([h] + t, key) && SortedByText(rest, key)
    requires StrLeq(key(h), key(x))
    requires multiset(rest) == multiset(t) + multiset{x}
    ensures SortedByText([h] + rest, key)
  {
    forall j | 0 <= j < |rest|
      ensures StrLeq(key(h), key(rest[j]))
    {
      var y := rest[j];
      assert y in multiset(rest);
      if y != x {
        assert y in multiset(t);
        assert y in t;
        var m :| 0 <= m < |t| && t[m] == y;
        assert ([h] + t)[0] == h && ([h] + t)[m + 1] == y;
      }
    }
  }

  function InsertByText<T>(x: T, s: seq<T>, key: T -> string): (r: seq<T>)
    requires SortedByText(s, key)
    ensures |r| == |s| + 1 && multiset(r) == multiset(s) + multiset{x}
    ensures SortedByText(r, key)
    decreases |s|
  {
    if s == [] || StrLeq(key(x), key(s[0])) then
      ConsSortedByText(x, s, key);
      [x] + s
    else
      StrLeqTotal(key(x), key(s[0]));
      var rest := InsertByText(x, s[1..], key);
      assert s == [s[0]] + s[1..];
      HeadBeforeInsertedByText(s[0], s[1..], x, rest, key);
      [s[0]] + rest
  }

  /** A stable insertion sort, smallest text first. */
  function SortByText<T>(s: seq<T>, key: T -> string): (r: seq<T>)
    ensures |r| == |s| && multiset(r) == multiset(s)
    ensures SortedByText(r, key)
    decreases |s|
  {
    if s == [] then []
    else
      assert s == [s[0]] + s[1..];
      InsertByText(s[0], SortByText(s[1..], key), key)
  }

  /** Taking as many elements as there are, without taking any more often
      than it occurs, takes them all. */
  lemma SubMultisetOfSameSize<T>(a: seq<T>, b: seq<T>)
    requires multiset(a) <= multiset(b) && |a| == |b|
    ensures multiset(a) == multiset(b)
  {
    assert |multiset(b) - multiset(a)| == |multiset(b)| - |multiset(a)|;
    assert multiset(b) == multiset(a) + (multiset(b) - multiset(a));
  }

  /** `order_by('key')[:n]`: at most `n` elements, smallest text first, and
      nothing left out sorts before anything kept. */
  function FirstNByText<T(!new)>(s: seq<T>, key: T -> string, n: nat): (r: seq<T>)
    ensures |r| == Min(n, |s|) && multiset(r) <= multiset(s)
    ensures SortedByText(r, key)
    ensures forall x, y :: x in s && x !in r && y in r ==> StrLeq(key(y), key(x))
  {
    var sorted := SortByText(s, key);
    var k := Min(n, |s|);
    PrefixMultiset(sorted, k);
    assert forall x :: x in s <==> x in multiset(sorted);
    forall x, y | x in sorted && x !in sorted[..k] && y in sorted[..k]
      ensures StrLeq(key(y), key(x))
    {
      var i :| 0 <= i < |sorted| && sorted[i] == x;
      var j :| 0 <= j < k && sorted[..k][j] == y;
    }
    Take(sorted, n)
  }
}
