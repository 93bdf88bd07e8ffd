/** Sequence helpers shared by the delivery-log queries. They stand in for SQL:
    `Filter` for WHERE, a stable insertion sort over any total preorder for
    ORDER BY, `Take` for LIMIT and `Distinct` for the groups of GROUP BY. */
module Sequences {

  /** `before(a, b)`: `a` may come before `b`. Every pair is comparable and the relation is transitive. */
  ghost predicate TotalPreorder<T(!new)>(before: (T, T) -> bool) {
    && (forall a, b :: before(a, b) || before(b, a))
    && (forall a, b, c :: before(a, b) && before(b, c) ==> before(a, c))
  }

  predicate SortedBy<T>(s: seq<T>, before: (T, T) -> bool) {
    forall i, j | 0 <= i < j < |s| :: before(s[i], s[j])
  }

  /** Places `x` ahead of the first element it may precede. */
  function Insert<T(!new)>(x: T, s: seq<T>, before: (T, T) -> bool): (r: seq<T>)
    requires TotalPreorder(before)
    requires SortedBy(s, before)
    ensures |r| == |s| + 1
    ensures multiset(r) == multiset(s) + multiset{x}
    ensures forall j | 0 <= j < |r| :: r[j] == x || r[j] in s
    ensures SortedBy(r, before)
  {
    if |s| == 0 then [x]
    else if before(x, s[0]) then
      assert s == [s[0]] + s[1..];
      [x] + s
    else
      var tail := Insert(x, s[1..], before);
      assert s == [s[0]] + s[1..];
      assert before(s[0], x);
      assert forall j | 0 <= j < |tail| :: before(s[0], tail[j]) by {
        forall j | 0 <= j < |tail| ensures before(s[0], tail[j]) {
          if tail[j] != x {
            var k :| 0 <= k < |s[1..]| && s[1..][k] == tail[j];
            assert s[k + 1] == tail[j];
          }
        }
      }
      [s[0]] + tail
  }

  /** Insertion sort: a permutation of `s` ordered by `before`. Among elements
      that precede each other both ways, input order is kept. */
  function Sort<T(!new)>(s: seq<T>, before: (T, T) -> bool): (r: seq<T>)
    requires TotalPreorder(before)
    ensures |r| == |s|
    ensures multiset(r) == multiset(s)
    ensures SortedBy(r, before)
  {
    if |s| == 0 then []
    else
      assert s == [s[0]] + s[1..];
      Insert(s[0], Sort(s[1..], before), before)
  }

  /** Sorting keeps every element of the input exactly as often. */
  lemma SortSameElements<T(!new)>(s: seq<T>, before: (T, T) -> bool, x: T)
    requires TotalPreorder(before)
    ensures x in Sort(s, before) <==> x in s
  {
    assert x in s <==> x in multiset(s);
    assert x in Sort(s, before) <==> x in multiset(Sort(s, before));
  }

  predicate NoDuplicates<T(==)>(s: seq<T>) {
    forall i, j | 0 <= i < j < |s| :: s[i] != s[j]
  }

  /** The distinct elements of `s`, in order of first appearance. */
  function Distinct<T(==)>(s: seq<T>): (r: seq<T>)
    ensures NoDuplicates(r)
    ensures forall i | 0 <= i < |r| :: r[i] in s
    ensures forall i | 0 <= i < |s| :: s[i] in r
    ensures |r| <= |s|
  {
    if |s| == 0 then []
    else
      var init := s[..|s| - 1];
      var front := Distinct(init);
      var last := s[|s| - 1];
      assert forall i | 0 <= i < |s| - 1 :: s[i] == init[i];
      if last in front then front else front + [last]
  }

  /** The elements of `s` that satisfy `p`, in their original order. */
  function Filter<T>(s: seq<T>, p: T -> bool): (r: seq<T>)
    ensures |r| <= |s|
    ensures forall i | 0 <= i < |r| :: p(r[i])
  {
    if |s| == 0 then []
    else
      var rest := Filter(s[1..], p);
      if p(s[0]) then [s[0]] + rest else rest
  }

  /** The filtered sequence holds exactly the elements of `s` that satisfy `p`. */
  lemma {:induction false} FilterMembers<T>(s: seq<T>, p: T -> bool)
    ensures forall x | x in Filter(s, p) :: p(x) && x in s
    ensures forall x | x in s && p(x) :: x in Filter(s, p)
  {
    if |s| > 0 {
      FilterMembers(s[1..], p);
      assert s == [s[0]] + s[1..];
    }
  }

  /** Filtering a sequence extended by one element extends the filtered sequence by that element when it qualifies. */
  lemma {:induction false} FilterAppend<T>(s: seq<T>, x: T, p: T -> bool)
    ensures Filter(s + [x], p) == Filter(s, p) + (if p(x) then [x] else [])
  {
    if |s| > 0 {
      assert (s + [x])[1..] == s[1..] + [x];
      FilterAppend(s[1..], x, p);
    } else {
      assert s + [x] == [x];
    }
  }

  /** Filtering by `p` and by its complement `q` splits `s` in two. */
  lemma {:induction false} FilterSplits<T>(s: seq<T>, p: T -> bool, q: T -> bool)
    requires forall i | 0 <= i < |s| :: q(s[i]) == !p(s[i])
    ensures |Filter(s, p)| + |Filter(s, q)| == |s|
  {
    if |s| > 0 {
      FilterSplits(s[1..], p, q);
    }
  }

  /** Filtering distributes over concatenation. */
  lemma {:induction false} FilterConcat<T>(u: seq<T>, v: seq<T>, p: T -> bool)
    ensures Filter(u + v, p) == Filter(u, p) + Filter(v, p)
  {
    if |u| > 0 {
      assert (u + v)[1..] == u[1..] + v;
      FilterConcat(u[1..], v, p);
    } else {
      assert u + v == v;
    }
  }

  /** The first element of `a` sits somewhere in any permutation `b` of it, and
      what is left on either side is a permutation of the rest of `a`. */
  lemma MatchFirst<T>(a: seq<T>, b: seq<T>) returns (k: nat)
    requires multiset(a) == multiset(b) && |a| > 0
    ensures k < |b| && b[k] == a[0]
    ensures b == b[..k] + [a[0]] + b[k + 1..]
    ensures multiset(a[1..]) == multiset(b[..k] + b[k + 1..])
  {
    var x := a[0];
    assert x in multiset(b);
    k :| 0 <= k < |b| && b[k] == x;
    assert b == b[..k] + [x] + b[k + 1..];
    assert a == [x] + a[1..];
    assert multiset(b) == multiset(b[..k]) + multiset{x} + multiset(b[k + 1..]);
    assert multiset(b[..k] + b[k + 1..]) == multiset(b) - multiset{x};
    assert multiset(a[1..]) == multiset(a) - multiset{x};
  }

  /** How many elements pass a filter does not depend on their order. */
  lemma {:induction false} FilterCountPermutation<T>(a: seq<T>, b: seq<T>, p: T -> bool)
    requires multiset(a) == multiset(b)
    ensures |Filter(a, p)| == |Filter(b, p)|
    decreases |a|
  {
    if |a| == 0 {
      assert |multiset(b)| == 0;
    } else {
      var k := MatchFirst(a, b);
      var x, left, right := a[0], b[..k], b[k + 1..];
      FilterCountPermutation(a[1..], left + right, p);
      assert a == [x] + a[1..];
      FilterConcat([x], a[1..], p);
      FilterConcat(left + [x], right, p);
      FilterConcat(left, [x], p);
      FilterConcat(left, right, p);
    }
  }

  /** Filtering by `p` and then by a stronger `q` is filtering by `q`. */
  lemma {:induction false} FilterStronger<T>(s: seq<T>, p: T -> bool, q: T -> bool)
    requires forall i | 0 <= i < |s| :: q(s[i]) ==> p(s[i])
    ensures Filter(Filter(s, p), q) == Filter(s, q)
  {
    if |s| > 0 {
      FilterStronger(s[1..], p, q);
      if p(s[0]) {
        assert ([s[0]] + Filter(s[1..], p))[1..] == Filter(s[1..], p);
      }
    }
  }

  /** SQL's LIMIT: the first `limit` elements; SQLite reads a negative limit as none. */
  function Take<T>(s: seq<T>, limit: int): (r: seq<T>)
    ensures |r| == if 0 <= limit < |s| then limit else |s|
    ensures forall i | 0 <= i < |r| :: r[i] == s[i]
  {
    if 0 <= limit < |s| then s[..limit] else s
  }

  /** In a sorted sequence, whatever a prefix `r` leaves out comes after everything it kept. */
  lemma PrefixPrecedesRest<T>(s: seq<T>, r: seq<T>, before: (T, T) -> bool, x: T)
    requires SortedBy(s, before)
    requires |r| <= |s| && forall i | 0 <= i < |r| :: r[i] == s[i]
    requires x in s && x !in r
    ensures forall i | 0 <= i < |r| :: before(r[i], x)
  {
    var k :| 0 <= k < |s| && s[k] == x;
  }

  /** SQL's WHERE `p` ORDER BY `before` LIMIT `limit` over `s`. Nothing that
      satisfies `p` and was cut off by the limit comes before what was kept. */
  function SelectOrdered<T(!new)>(s: seq<T>, p: T -> bool, before: (T, T) -> bool, limit: int): (r: seq<T>)
    requires TotalPreorder(before)
    ensures forall i | 0 <= i < |r| :: p(r[i]) && r[i] in s
    ensures SortedBy(r, before)
    ensures |r| == |Take(Filter(s, p), limit)|
    ensures forall x, i | x in s && p(x) && x !in r && 0 <= i < |r| :: before(r[i], x)
    ensures (limit < 0 || |Filter(s, p)| <= limit) ==> forall x | x in s && p(x) :: x in r
    ensures multiset(r) <= multiset(Filter(s, p))
    ensures (limit < 0 || |Filter(s, p)| <= limit) ==> multiset(r) == multiset(Filter(s, p))
  {
    var sorted := Sort(Filter(s, p), before);
    var r := Take(sorted, limit);
    SelectOrderedFacts(s, p, before, limit, r);
    TakeMultiset(sorted, limit);
    r
  }

  /** A `LIMIT` keeps some of the elements, each no more often than before,
      and all of them when the limit does not cut. */
  lemma TakeMultiset<T>(s: seq<T>, limit: int)
    ensures multiset(Take(s, limit)) <= multiset(s)
    ensures (limit < 0 || |s| <= limit) ==> Take(s, limit) == s
  {
    if 0 <= limit < |s| {
      assert s == s[..limit] + s[limit..];
    }
  }

  lemma SelectOrderedFacts<T(!new)>(s: seq<T>, p: T -> bool, before: (T, T) -> bool, limit: int, r: seq<T>)
    requires TotalPreorder(before)
    requires r == Take(Sort(Filter(s, p), before), limit)
    ensures forall i | 0 <= i < |r| :: p(r[i]) && r[i] in s
    ensures forall x, i | x in s && p(x) && x !in r && 0 <= i < |r| :: before(r[i], x)
    ensures (limit < 0 || |Filter(s, p)| <= limit) ==> forall x | x in s && p(x) :: x in r
  {
    var matching := Filter(s, p);
    TakeSortedFacts(matching, Sort(matching, before), before, limit, r);
    FilterMembers(s, p);
  }

  /** What a prefix of a sorted permutation of `m` keeps and leaves out. */
  lemma TakeSortedFacts<T>(m: seq<T>, sorted: seq<T>, before: (T, T) -> bool, limit: int, r: seq<T>)
    requires SortedBy(sorted, before)
    requires multiset(sorted) == multiset(m)
    requires r == Take(sorted, limit)
    ensures forall i | 0 <= i < |r| :: r[i] in m
    ensures forall x, i | x in m && x !in r && 0 <= i < |r| :: before(r[i], x)
    ensures (limit < 0 || |m| <= limit) ==> forall x | x in m :: x in r
  {
    assert |sorted| == |m| by { assert |multiset(sorted)| == |multiset(m)|; }
    assert forall i | 0 <= i < |r| :: r[i] == sorted[i];
    assert forall i | 0 <= i < |sorted| :: sorted[i] in multiset(m);
    forall x | x in m && x !in r
      ensures forall i | 0 <= i < |r| :: before(r[i], x)
    {
      assert x in multiset(sorted);
      PrefixPrecedesRest(sorted, r, before, x);
    }
    if limit < 0 || |m| <= limit {
      forall x | x in m ensures x in r {
        assert x in multiset(sorted);
      }
    }
  }

  /** Without duplicates, nothing occurs twice. */
  lemma {:induction false} NoDuplicatesAtMostOnce<T>(s: seq<T>, x: T)
    requires NoDuplicates(s)
    ensures multiset(s)[x] <= 1
  {
    if |s| > 0 {
      assert s == [s[0]] + s[1..];
      NoDuplicatesAtMostOnce(s[1..], x);
      if x == s[0] {
        assert x !in s[1..];
      }
    }
  }

  lemma RepeatCountsTwice<T>(s: seq<T>, i: nat, j: nat)
    requires i < j < |s|
    ensures s[i] == s[j] ==> multiset(s)[s[i]] >= 2
  {
    assert s == s[..j] + s[j..];
    assert s[..j][i] == s[i];
    assert s[j..][0] == s[j];
  }

  /** A permutation of a sequence without duplicates has none either. */
  lemma PermutationKeepsNoDuplicates<T>(a: seq<T>, b: seq<T>)
    requires NoDuplicates(a)
    requires multiset(a) == multiset(b)
    ensures NoDuplicates(b)
  {
    forall i, j | 0 <= i < j < |b| ensures b[i] != b[j] {
      NoDuplicatesAtMostOnce(a, b[i]);
      RepeatCountsTwice(b, i, j);
    }
  }

  /** A key and how often it occurs. */
  datatype Tally<T> = Tally(key: T, count: nat)

  /** Each distinct element of `s` with its number of occurrences, in order of first appearance. */
  function Tallies<T(==)>(s: seq<T>): (r: seq<Tally<T>>)
    ensures |r| <= |s|
    ensures forall i | 0 <= i < |r| :: r[i].count == multiset(s)[r[i].key] > 0
    ensures forall i, j | 0 <= i < j < |r| :: r[i].key != r[j].key
    ensures forall i | 0 <= i < |s| :: exists j | 0 <= j < |r| :: r[j].key == s[i]
  {
    var keys := Distinct(s);
    var r := seq(|keys|, i requires 0 <= i < |keys| => Tally(keys[i], multiset(s)[keys[i]]));
    forall i | 0 <= i < |s| ensures exists j | 0 <= j < |r| :: r[j].key == s[i] {
      var j :| 0 <= j < |keys| && keys[j] == s[i];
      assert r[j].key == keys[j];
    }
    r
  }

  function MoreFrequent<T>(): (Tally<T>, Tally<T>) -> bool {
    (a: Tally<T>, b: Tally<T>) => a.count >= b.count
  }

  lemma MoreFrequentIsTotalPreorder<T(!new)>()
    ensures TotalPreorder(MoreFrequent<T>())
  {
  }

  /** SQL's `GROUP BY x ORDER BY count(*) DESC LIMIT n` over `s`: the `n` most
      frequent elements with their counts, most frequent first. SQL leaves the
      order of ties open; here they keep their order of first appearance. */
  function MostCommon<T(==,!new)>(s: seq<T>, n: nat): (r: seq<Tally<T>>)
    ensures |r| <= n
    ensures forall i | 0 <= i < |r| :: r[i].count == multiset(s)[r[i].key] > 0
    ensures forall i, j | 0 <= i < j < |r| :: r[i].count >= r[j].count
  {
    MoreFrequentIsTotalPreorder<T>();
    var sorted := Sort(Tallies(s), MoreFrequent<T>());
    TallyPrefix(s, sorted, n);
    Take(sorted, n)
  }

  lemma TallyPrefix<T>(s: seq<T>, sorted: seq<Tally<T>>, n: nat)
    requires multiset(sorted) == multiset(Tallies(s))
    requires SortedBy(sorted, MoreFrequent<T>())
    ensures var r := Take(sorted, n);
      && (forall i | 0 <= i < |r| :: r[i].count == multiset(s)[r[i].key] > 0)
      && (forall i, j | 0 <= i < j < |r| :: r[i].count >= r[j].count)
  {
    var r := Take(sorted, n);
    assert forall i | 0 <= i < |r| :: r[i] == sorted[i] && sorted[i] in multiset(Tallies(s));
  }

  /** `MostCommon` lists no element twice, lists `n` of them when there are that many,
      and an element it leaves out occurs no more often than any it lists. */
  lemma {:induction false} MostCommonIsTop<T(!new)>(s: seq<T>, n: nat)
    ensures var r := MostCommon(s, n);
      && (forall i, j | 0 <= i < j < |r| :: r[i].key != r[j].key)
      && |r| == (if n < |Tallies(s)| then n else |Tallies(s)|)
      && (forall x, i | x in s && 0 <= i < |r| && (forall j | 0 <= j < |r| :: r[j].key != x) ::
            r[i].count >= multiset(s)[x])
  {
    MoreFrequentIsTotalPreorder<T>();
    var sorted := Sort(Tallies(s), MoreFrequent<T>());
    TopTallies(s, sorted, n);
  }

  lemma {:induction false} TopTallies<T>(s: seq<T>, sorted: seq<Tally<T>>, n: nat)
    requires multiset(sorted) == multiset(Tallies(s))
    requires SortedBy(sorted, MoreFrequent<T>())
    ensures var r := Take(sorted, n);
      && (forall i, j | 0 <= i < j < |r| :: r[i].key != r[j].key)
      && |r| == (if n < |Tallies(s)| then n else |Tallies(s)|)
      && (forall x, i | x in s && 0 <= i < |r| && (forall j | 0 <= j < |r| :: r[j].key != x) ::
            r[i].count >= multiset(s)[x])
  {
    assert |sorted| == |Tallies(s)| by { assert |multiset(sorted)| == |multiset(Tallies(s))|; }
    TopTalliesDistinct(s, sorted, n);
    TopTalliesCover(s, sorted, n);
  }

  lemma TopTalliesDistinct<T>(s: seq<T>, sorted: seq<Tally<T>>, n: nat)
    requires multiset(sorted) == multiset(Tallies(s))
    ensures var r := Take(sorted, n);
      forall i, j | 0 <= i < j < |r| :: r[i].key != r[j].key
  {
    var tallies := Tallies(s);
    var r := Take(sorted, n);
    assert NoDuplicates(tallies);
    PermutationKeepsNoDuplicates(tallies, sorted);
    forall i, j | 0 <= i < j < |r| ensures r[i].key != r[j].key {
      assert r[i] == sorted[i] && r[j] == sorted[j];
      assert r[i] in multiset(tallies) && r[j] in multiset(tallies);
    }
  }

  lemma TopTalliesCover<T>(s: seq<T>, sorted: seq<Tally<T>>, n: nat)
    requires multiset(sorted) == multiset(Tallies(s))
    requires SortedBy(sorted, MoreFrequent<T>())
    ensures var r := Take(sorted, n);
      forall x, i | x in s && 0 <= i < |r| && (forall j | 0 <= j < |r| :: r[j].key != x) ::
        r[i].count >= multiset(s)[x]
  {
    var tallies := Tallies(s);
    var r := Take(sorted, n);
    TakeSortedFacts(tallies, sorted, MoreFrequent<T>(), n, r);
    forall x, i | x in s && 0 <= i < |r| && (forall j | 0 <= j < |r| :: r[j].key != x)
      ensures r[i].count >= multiset(s)[x]
    {
      var k :| 0 <= k < |s| && s[k] == x;
      var p :| 0 <= p < |tallies| && tallies[p].key == s[k];
      assert tallies[p] !in r;
      assert MoreFrequent<T>()(r[i], tallies[p]);
    }
  }

  /** A list shorter than asked for holds every element of `s`. */
  lemma {:induction false} MostCommonCovers<T(!new)>(s: seq<T>, n: nat)
    ensures var r := MostCommon(s, n);
      |r| < n ==> forall x | x in s :: exists i | 0 <= i < |r| :: r[i].key == x
  {
    MoreFrequentIsTotalPreorder<T>();
    var sorted := Sort(Tallies(s), MoreFrequent<T>());
    CoverTallies(s, sorted, n);
  }

  lemma CoverTallies<T>(s: seq<T>, sorted: seq<Tally<T>>, n: nat)
    requires multiset(sorted) == multiset(Tallies(s))
    ensures var r := Take(sorted, n);
      |r| < n ==> forall x | x in s :: exists i | 0 <= i < |r| :: r[i].key == x
  {
    var tallies := Tallies(s);
    var r := Take(sorted, n);
    assert |sorted| == |tallies| by { assert |multiset(sorted)| == |multiset(tallies)|; }
    if |r| < n {
      forall x | x in s ensures exists i | 0 <= i < |r| :: r[i].key == x {
        var k :| 0 <= k < |s| && s[k] == x;
        var p :| 0 <= p < |tallies| && tallies[p].key == s[k];
        assert tallies[p] in multiset(sorted);
        var i :| 0 <= i < |sorted| && sorted[i] == tallies[p];
        assert r[i] == sorted[i];
      }
    }
  }
}
