/** The query shapes the ledger store offers (Prisma's `findMany` with a
    `where`, `aggregate` with `_sum`, `groupBy` with `_sum`/`_count`, and
    `orderBy`), stated as pure functions over sequences of rows. */
module Rows {

  datatype Option<+T> = None | Some(value: T) {
    /** JavaScript's `x || d` on a nullable number. */
    function GetOr(default: T): T {
      if Some? then value else default
    }
  }

  // ---------------------------------------------------------------------------
  // Sums and filters
  // ---------------------------------------------------------------------------

  /** Left-to-right sum of `f` over the rows, as `reduce((s, x) => s + f(x), 0)`. */
  function Sum<T(!new)>(xs: seq<T>, f: T -> real): real
  {
    if xs == [] then 0.0 else Sum(xs[..|xs| - 1], f) + f(xs[|xs| - 1])
  }

  /** A sum of non-negative values is non-negative. */
  lemma {:induction false} SumNonNegative<T(!new)>(xs: seq<T>, f: T -> real)
    requires forall x :: x in xs ==> f(x) >= 0.0
    ensures Sum(xs, f) >= 0.0
  {
    if xs != [] {
      SumNonNegative(xs[..|xs| - 1], f);
    }
  }

  /** `a` is obtained from `b` by deleting elements (order is kept). */
  ghost predicate Subsequence<T(!new)>(a: seq<T>, b: seq<T>)
    decreases |b|
  {
    a == [] ||
    (b != [] &&
     ((a[|a| - 1] == b[|b| - 1] && Subsequence(a[..|a| - 1], b[..|b| - 1])) ||
      Subsequence(a, b[..|b| - 1])))
  }

  /** The rows satisfying `p`, in storage order (a `where` clause). */
  function Where<T(!new)>(xs: seq<T>, p: T -> bool): (r: seq<T>)
    ensures Subsequence(r, xs)
    ensures forall x :: x in r <==> x in xs && p(x)
  {
    if xs == [] then []
    else
      var init := Where(xs[..|xs| - 1], p);
      if p(xs[|xs| - 1]) then
        assert (init + [xs[|xs| - 1]])[..|init|] == init;
        init + [xs[|xs| - 1]]
      else init
  }

  /** A `where` clause keeps every matching row as often as it occurs and
      drops every other row: the result is the input's multiset restricted
      to `p`. */
  lemma {:induction false} WhereMultiset<T(!new)>(xs: seq<T>, p: T -> bool)
    ensures forall x :: multiset(Where(xs, p))[x] == if p(x) then multiset(xs)[x] else 0
  {
    if xs != [] {
      var init := xs[..|xs| - 1];
      assert xs == init + [xs[|xs| - 1]];
      WhereMultiset(init, p);
    }
  }

  /** Prisma's `aggregate({ _sum })`: null (None) when no row matches. */
  function Aggregate<T(!new)>(xs: seq<T>, f: T -> real): (r: Option<real>)
    ensures r.None? <==> xs == []
  {
    if xs == [] then None else Some(Sum(xs, f))
  }

  /** An absent aggregate read with `|| 0` is the plain sum of the rows. */
  lemma AggregateOrZero<T(!new)>(xs: seq<T>, f: T -> real)
    ensures Aggregate(xs, f).GetOr(0.0) == Sum(xs, f)
  {
  }

  lemma {:induction false} SumAppend<T(!new)>(a: seq<T>, b: seq<T>, f: T -> real)
    ensures Sum(a + b, f) == Sum(a, f) + Sum(b, f)
    decreases |b|
  {
    if b == [] {
      assert a + b == a;
    } else {
      var b' := b[..|b| - 1];
      assert (a + b)[..|a + b| - 1] == a + b';
      SumAppend(a, b', f);
    }
  }

  lemma {:induction false} WhereAppend<T(!new)>(a: seq<T>, b: seq<T>, p: T -> bool)
    ensures Where(a + b, p) == Where(a, p) + Where(b, p)
    decreases |b|
  {
    if b == [] {
      assert a + b == a;
    } else {
      var b' := b[..|b| - 1];
      assert (a + b)[..|a + b| - 1] == a + b';
      WhereAppend(a, b', p);
    }
  }

  /** A filter that no row passes selects nothing. */
  lemma {:induction false} WhereNone<T(!new)>(xs: seq<T>, p: T -> bool)
    requires forall x :: x in xs ==> !p(x)
    ensures Where(xs, p) == []
  {
    if xs != [] {
      WhereNone(xs[..|xs| - 1], p);
    }
  }

  /** A filter that every row passes selects every row. */
  lemma {:induction false} WhereAll<T(!new)>(xs: seq<T>, p: T -> bool)
    requires forall x :: x in xs ==> p(x)
    ensures Where(xs, p) == xs
  {
    if xs != [] {
      WhereAll(xs[..|xs| - 1], p);
      assert xs == xs[..|xs| - 1] + [xs[|xs| - 1]];
    }
  }

  /** Filters that agree on every row select the same rows. */
  lemma {:induction false} WhereCongruent<T(!new)>(xs: seq<T>, p: T -> bool, q: T -> bool)
    requires forall x :: x in xs ==> p(x) == q(x)
    ensures Where(xs, p) == Where(xs, q)
  {
    if xs != [] {
      WhereCongruent(xs[..|xs| - 1], p, q);
    }
  }

  // ---------------------------------------------------------------------------
  // De-duplication in first-appearance order (JavaScript's `new Set(xs)`)
  // ---------------------------------------------------------------------------

  /** The index of the first occurrence of `x` in `xs`. */
  function FirstIndex<T(==,!new)>(xs: seq<T>, x: T): (i: nat)
    requires x in xs
    ensures i < |xs| && xs[i] == x && x !in xs[..i]
  {
    if xs[0] == x then 0 else 1 + FirstIndex(xs[1..], x)
  }

  lemma FirstIndexOfPrefix<T(!new)>(xs: seq<T>, x: T, y: T)
    requires y in xs
    ensures FirstIndex(xs + [x], y) == FirstIndex(xs, y)
  {
    var j := FirstIndex(xs, y);
    assert (xs + [x])[..j] == xs[..j];
    assert (xs + [x])[j] == y;
  }

  /** The distinct elements of `xs`, each once, in order of first appearance. */
  function Dedupe<T(==,!new)>(xs: seq<T>): (r: seq<T>)
    ensures forall x :: x in r <==> x in xs
    ensures forall i, j :: 0 <= i < j < |r| ==> r[i] != r[j]
    ensures forall i, j :: 0 <= i < j < |r| ==> FirstIndex(xs, r[i]) < FirstIndex(xs, r[j])
  {
    if xs == [] then []
    else
      var init, x := xs[..|xs| - 1], xs[|xs| - 1];
      assert xs == init + [x];
      var d := Dedupe(init);
      forall y | y in d ensures FirstIndex(xs, y) == FirstIndex(init, y) < |init| {
        FirstIndexOfPrefix(init, x, y);
      }
      if x in d then d
      else
        assert FirstIndex(xs, x) == |init| by {
          assert x !in xs[..|init|];
        }
        d + [x]
  }

  // ---------------------------------------------------------------------------
  // Grouping (Prisma's `groupBy` with `_sum` and `_count`)
  // ---------------------------------------------------------------------------

  /** One output row of a `groupBy`: the key, the summed column and the row count. */
  datatype Group<K> = Group(key: K, sum: real, count: nat)

  /** Sum of `f` over the rows whose key is `k`. */
  function KeySum<T(!new), K(==,!new)>(xs: seq<T>, key: T -> K, f: T -> real, k: K): real
  {
    if xs == [] then 0.0
    else KeySum(xs[..|xs| - 1], key, f, k) + (if key(xs[|xs| - 1]) == k then f(xs[|xs| - 1]) else 0.0)
  }

  /** Number of rows whose key is `k`. */
  function KeyCount<T(!new), K(==,!new)>(xs: seq<T>, key: T -> K, k: K): nat
  {
    if xs == [] then 0
    else KeyCount(xs[..|xs| - 1], key, k) + (if key(xs[|xs| - 1]) == k then 1 else 0)
  }

  function GroupKeys<K(!new)>(gs: seq<Group<K>>): set<K>
  {
    set g | g in gs :: g.key
  }

  ghost predicate DistinctKeys<K(!new)>(gs: seq<Group<K>>)
  {
    forall i, j :: 0 <= i < j < |gs| ==> gs[i].key != gs[j].key
  }

  /** Sum of the `sum` column over the groups, left to right. */
  function GroupTotal<K(!new)>(gs: seq<Group<K>>): real
  {
    if gs == [] then 0.0 else GroupTotal(gs[..|gs| - 1]) + gs[|gs| - 1].sum
  }

  /** Accounts for one more row of key `k` and value `v`. */
  function AddToGroups<K(==,!new)>(gs: seq<Group<K>>, k: K, v: real): (r: seq<Group<K>>)
    ensures GroupKeys(r) == GroupKeys(gs) + {k}
    ensures DistinctKeys(gs) ==> DistinctKeys(r)
    ensures (forall g :: g in gs ==> g.count > 0) ==> forall g :: g in r ==> g.count > 0
  {
    if gs == [] then [Group(k, v, 1)]
    else if gs[0].key == k then [gs[0].(sum := gs[0].sum + v, count := gs[0].count + 1)] + gs[1..]
    else
      var rest := AddToGroups(gs[1..], k, v);
      assert gs == [gs[0]] + gs[1..];
      ConsGroup(gs[0], gs[1..], rest, k);
      [gs[0]] + rest
  }

  /** A group with another key in front of groups that gained key `k`. */
  lemma ConsGroup<K(!new)>(g0: Group<K>, tail: seq<Group<K>>, rest: seq<Group<K>>, k: K)
    requires g0.key != k
    requires GroupKeys(rest) == GroupKeys(tail) + {k}
    requires DistinctKeys(tail) ==> DistinctKeys(rest)
    ensures GroupKeys([g0] + rest) == GroupKeys([g0] + tail) + {k}
    ensures DistinctKeys([g0] + tail) ==> DistinctKeys([g0] + rest)
  {
    assert GroupKeys([g0] + tail) == {g0.key} + GroupKeys(tail);
    assert GroupKeys([g0] + rest) == {g0.key} + GroupKeys(rest);
    if DistinctKeys([g0] + tail) {
      assert DistinctKeys(tail) by {
        forall i, j | 0 <= i < j < |tail| ensures tail[i].key != tail[j].key {
          assert ([g0] + tail)[i + 1] == tail[i] && ([g0] + tail)[j + 1] == tail[j];
        }
      }
      assert g0.key !in GroupKeys(tail) by {
        forall g | g in tail ensures g.key != g0.key {
          var j :| 0 <= j < |tail| && tail[j] == g;
          assert ([g0] + tail)[0] == g0 && ([g0] + tail)[j + 1] == g;
        }
      }
      forall i, j | 0 <= i < j < |[g0] + rest| ensures ([g0] + rest)[i].key != ([g0] + rest)[j].key {
        assert rest[j - 1] in rest;
        assert rest[j - 1].key in GroupKeys(rest);
        if i > 0 {
          assert ([g0] + rest)[i] == rest[i - 1] && ([g0] + rest)[j] == rest[j - 1];
        }
      }
    }
  }

  /** The groups, one per distinct key, in order of first appearance. */
  function GroupBy<T(!new), K(==,!new)>(xs: seq<T>, key: T -> K, f: T -> real): seq<Group<K>>
  {
    if xs == [] then []
    else AddToGroups(GroupBy(xs[..|xs| - 1], key, f), key(xs[|xs| - 1]), f(xs[|xs| - 1]))
  }

  /** The sum held by the first group with key `k` (0 when there is none). */
  function SumOfKey<K(==,!new)>(gs: seq<Group<K>>, k: K): real
  {
    if gs == [] then 0.0 else if gs[0].key == k then gs[0].sum else SumOfKey(gs[1..], k)
  }

  /** The count held by the first group with key `k` (0 when there is none). */
  function CountOfKey<K(==,!new)>(gs: seq<Group<K>>, k: K): nat
  {
    if gs == [] then 0 else if gs[0].key == k then gs[0].count else CountOfKey(gs[1..], k)
  }

  lemma {:induction false} AddToGroupsLookup<K(!new)>(gs: seq<Group<K>>, k: K, v: real, k': K)
    ensures SumOfKey(AddToGroups(gs, k, v), k') == SumOfKey(gs, k') + (if k' == k then v else 0.0)
    ensures CountOfKey(AddToGroups(gs, k, v), k') == CountOfKey(gs, k') + (if k' == k then 1 else 0)
  {
    if gs != [] && gs[0].key != k {
      AddToGroupsLookup(gs[1..], k, v, k');
    }
  }

  lemma {:induction false} LookupMember<K(!new)>(gs: seq<Group<K>>, g: Group<K>)
    requires DistinctKeys(gs) && g in gs
    ensures g.sum == SumOfKey(gs, g.key) && g.count == CountOfKey(gs, g.key)
  {
    if gs[0] != g {
      var i :| 0 <= i < |gs| && gs[i] == g;
      assert gs[0].key != gs[i].key;
      assert gs[1..][i - 1] == g;
      assert DistinctKeys(gs[1..]);
      LookupMember(gs[1..], g);
    }
  }

  lemma {:induction false} AddToGroupsTotal<K(!new)>(gs: seq<Group<K>>, k: K, v: real)
    ensures GroupTotal(AddToGroups(gs, k, v)) == GroupTotal(gs) + v
  {
    if gs == [] {
      assert [Group(k, v, 1)][..0] == [];
    } else {
      var r := AddToGroups(gs, k, v);
      assert gs == [gs[0]] + gs[1..];
      GroupTotalCons(gs[0], gs[1..]);
      if gs[0].key == k {
        GroupTotalCons(r[0], gs[1..]);
      } else {
        GroupTotalCons(gs[0], AddToGroups(gs[1..], k, v));
        AddToGroupsTotal(gs[1..], k, v);
      }
    }
  }

  lemma {:induction false} GroupTotalCons<K(!new)>(g: Group<K>, gs: seq<Group<K>>)
    ensures GroupTotal([g] + gs) == g.sum + GroupTotal(gs)
    decreases |gs|
  {
    if gs != [] {
      var init := gs[..|gs| - 1];
      assert ([g] + gs)[..|gs|] == [g] + init;
      GroupTotalCons(g, init);
    }
  }

  lemma {:induction false} GroupByLookup<T(!new), K(!new)>(xs: seq<T>, key: T -> K, f: T -> real, k: K)
    ensures SumOfKey(GroupBy(xs, key, f), k) == KeySum(xs, key, f, k)
    ensures CountOfKey(GroupBy(xs, key, f), k) == KeyCount(xs, key, k)
  {
    if xs != [] {
      var init, x := xs[..|xs| - 1], xs[|xs| - 1];
      GroupByLookup(init, key, f, k);
      AddToGroupsLookup(GroupBy(init, key, f), key(x), f(x), k);
    }
  }

  lemma {:induction false} GroupByKeys<T(!new), K(!new)>(xs: seq<T>, key: T -> K, f: T -> real)
    ensures GroupKeys(GroupBy(xs, key, f)) == set x | x in xs :: key(x)
  {
    if xs != [] {
      var init, x := xs[..|xs| - 1], xs[|xs| - 1];
      GroupByKeys(init, key, f);
      var before := set y | y in init :: key(y);
      forall k ensures k in (set y | y in xs :: key(y)) <==> k in before + {key(x)} {
        if k in (set y | y in xs :: key(y)) {
          var y :| y in xs && key(y) == k;
          if y != x {
            var i :| 0 <= i < |xs| && xs[i] == y;
            assert init[i] == y;
          }
        }
        if k in before {
          var y :| y in init && key(y) == k;
          assert y in xs;
        }
      }
    }
  }

  lemma {:induction false} GroupByShape<T(!new), K(!new)>(xs: seq<T>, key: T -> K, f: T -> real)
    ensures DistinctKeys(GroupBy(xs, key, f))
    ensures GroupKeys(GroupBy(xs, key, f)) == set x | x in xs :: key(x)
    ensures forall g :: g in GroupBy(xs, key, f) ==> g.count > 0
    ensures GroupTotal(GroupBy(xs, key, f)) == Sum(xs, f)
  {
    GroupByKeys(xs, key, f);
    if xs != [] {
      var init, x := xs[..|xs| - 1], xs[|xs| - 1];
      GroupByShape(init, key, f);
      AddToGroupsTotal(GroupBy(init, key, f), key(x), f(x));
    }
  }

  /** What a `groupBy` promises: one group per distinct key of the rows, each
      group holding the sum and the (non-zero) count of exactly the rows with
      its key, and the group sums adding up to the sum over all rows. */
  lemma GroupByCorrect<T(!new), K(!new)>(xs: seq<T>, key: T -> K, f: T -> real)
    ensures DistinctKeys(GroupBy(xs, key, f))
    ensures GroupKeys(GroupBy(xs, key, f)) == set x | x in xs :: key(x)
    ensures forall g :: g in GroupBy(xs, key, f) ==>
              g.sum == KeySum(xs, key, f, g.key) && g.count == KeyCount(xs, key, g.key) > 0
    ensures GroupTotal(GroupBy(xs, key, f)) == Sum(xs, f)
  {
    var gs := GroupBy(xs, key, f);
    GroupByShape(xs, key, f);
    forall g | g in gs
      ensures g.sum == KeySum(xs, key, f, g.key) && g.count == KeyCount(xs, key, g.key) > 0
    {
      LookupMember(gs, g);
      GroupByLookup(xs, key, f, g.key);
    }
  }

  // ---------------------------------------------------------------------------
  // Ordering (`orderBy: { date: 'asc' }`). The store promises no order among
  // equal dates; the model breaks ties by storage order (a stable sort).
  // ---------------------------------------------------------------------------

  ghost predicate SortedBy<T(!new)>(xs: seq<T>, date: T -> int)
  {
    forall i, j :: 0 <= i < j < |xs| ==> date(xs[i]) <= date(xs[j])
  }

  /** Two permutations of each other have the same members. */
  lemma SameMembers<T>(a: seq<T>, b: seq<T>)
    requires multiset(a) == multiset(b)
    ensures forall x :: x in a <==> x in b
  {
    forall x ensures x in a <==> x in b {
      assert x in a <==> x in multiset(a);
      assert x in b <==> x in multiset(b);
    }
  }

  /** Inserts `x` after every row dated no later than it. */
  function InsertBy<T(!new)>(x: T, s: seq<T>, date: T -> int): (r: seq<T>)
    requires SortedBy(s, date)
    ensures SortedBy(r, date)
    ensures multiset(r) == multiset(s) + multiset{x}
  {
    if s == [] then [x]
    else if date(x) < date(s[0]) then [x] + s
    else
      var rest := InsertBy(x, s[1..], date);
      assert s == [s[0]] + s[1..];
      HeadFirst(x, s, rest, date);
      [s[0]] + rest
  }

  /** Every row of a permutation of the tail plus `x` is dated no earlier
      than the head, when `x` is not earlier either. */
  lemma HeadFirst<T(!new)>(x: T, s: seq<T>, rest: seq<T>, date: T -> int)
    requires SortedBy(s, date) && s != [] && date(s[0]) <= date(x)
    requires multiset(rest) == multiset(s[1..]) + multiset{x}
    ensures forall j :: 0 <= j < |rest| ==> date(s[0]) <= date(rest[j])
  {
    forall j | 0 <= j < |rest| ensures date(s[0]) <= date(rest[j]) {
      var y := rest[j];
      assert y in multiset(rest);
      if y != x {
        assert y in multiset(s[1..]);
        var k :| 0 <= k < |s[1..]| && s[1..][k] == y;
        assert s[k + 1] == y;
      }
    }
  }

  /** The rows ordered by ascending date; in this model rows with equal dates
      keep their storage order. */
  function SortBy<T(!new)>(xs: seq<T>, date: T -> int): (r: seq<T>)
    ensures SortedBy(r, date)
    ensures multiset(r) == multiset(xs)
  {
    if xs == [] then []
    else
      assert xs == xs[..|xs| - 1] + [xs[|xs| - 1]];
      InsertBy(xs[|xs| - 1], SortBy(xs[..|xs| - 1], date), date)
  }

  /** The rows dated exactly `d`, in order. */
  function DatedOn<T(!new)>(xs: seq<T>, date: T -> int, d: int): seq<T>
  {
    if xs == [] then []
    else DatedOn(xs[..|xs| - 1], date, d) + (if date(xs[|xs| - 1]) == d then [xs[|xs| - 1]] else [])
  }

  lemma {:induction false} DatedOnAppend<T(!new)>(a: seq<T>, b: seq<T>, date: T -> int, d: int)
    ensures DatedOn(a + b, date, d) == DatedOn(a, date, d) + DatedOn(b, date, d)
    decreases |b|
  {
    if b == [] {
      assert a + b == a;
    } else {
      var b' := b[..|b| - 1];
      assert (a + b)[..|a + b| - 1] == a + b';
      DatedOnAppend(a, b', date, d);
    }
  }

  lemma {:induction false} DatedOnNone<T(!new)>(s: seq<T>, date: T -> int, d: int)
    requires forall j :: 0 <= j < |s| ==> date(s[j]) > d
    ensures DatedOn(s, date, d) == []
  {
    if s != [] {
      DatedOnNone(s[..|s| - 1], date, d);
    }
  }

  lemma {:induction false} InsertByStable<T(!new)>(x: T, s: seq<T>, date: T -> int, d: int)
    requires SortedBy(s, date)
    ensures DatedOn(InsertBy(x, s, date), date, d) == DatedOn(s, date, d) + DatedOn([x], date, d)
  {
    if s == [] {
      assert DatedOn([x], date, d) == [] + DatedOn([x], date, d);
    } else if date(x) < date(s[0]) {
      InsertByStableFront(x, s, date, d);
    } else {
      var rest := InsertBy(x, s[1..], date);
      assert InsertBy(x, s, date) == [s[0]] + rest;
      assert s == [s[0]] + s[1..];
      DatedOnAppend([s[0]], s[1..], date, d);
      DatedOnAppend([s[0]], rest, date, d);
      InsertByStable(x, s[1..], date, d);
    }
  }

  lemma InsertByStableFront<T(!new)>(x: T, s: seq<T>, date: T -> int, d: int)
    requires SortedBy(s, date) && s != [] && date(x) < date(s[0])
    ensures DatedOn([x] + s, date, d) == DatedOn(s, date, d) + DatedOn([x], date, d)
  {
    DatedOnAppend([x], s, date, d);
    if date(x) == d {
      DatedOnNone(s, date, d);
    }
  }

  /** Stability: for every date, the rows with that date appear in the sorted
      output in the same order as in storage. */
  lemma {:induction false} SortByStable<T(!new)>(xs: seq<T>, date: T -> int, d: int)
    ensures DatedOn(SortBy(xs, date), date, d) == DatedOn(xs, date, d)
  {
    if xs != [] {
      var init, x := xs[..|xs| - 1], xs[|xs| - 1];
      assert xs == init + [x];
      SortByStable(init, date, d);
      InsertByStable(x, SortBy(init, date), date, d);
      DatedOnAppend(init, [x], date, d);
    }
  }
}
