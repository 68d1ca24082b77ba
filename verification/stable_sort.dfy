/** The contract of `tabs.sort(key=lambda x: x[0])` on the list of (cost, tab) pairs:
    Python's list sort is stable, so it is modelled by a stable insertion sort on the cost. */
module StableSort {
  import opened Combinations

  /** One `(distance, tab)` pair of the list being sorted. */
  datatype Scored = Scored(cost: int, tab: seq<int>)

  ghost predicate SortedByCost(s: seq<Scored>)
  {
    forall i, j :: 0 <= i < j < |s| ==> s[i].cost <= s[j].cost
  }

  /** The pairs of `s` whose cost is `d`, in their order in `s`. */
  function WithCost(s: seq<Scored>, d: int): seq<Scored>
  {
    if s == [] then [] else (if s[0].cost == d then [s[0]] else []) + WithCost(s[1..], d)
  }

  /** Put `x` in front of the first pair that costs at least as much as `x`. */
  function Insert(x: Scored, s: seq<Scored>): seq<Scored>
  {
    if s == [] || x.cost <= s[0].cost then [x] + s else [s[0]] + Insert(x, s[1..])
  }

  lemma {:induction false} InsertMembers(x: Scored, s: seq<Scored>)
    ensures multiset(Insert(x, s)) == multiset(s) + multiset{x}
    ensures forall e :: e in Insert(x, s) <==> e == x || e in s
  {
    if s != [] && x.cost > s[0].cost {
      InsertMembers(x, s[1..]);
      assert s == [s[0]] + s[1..];
    }
  }

  lemma {:induction false} InsertSorted(x: Scored, s: seq<Scored>)
    requires SortedByCost(s)
    ensures SortedByCost(Insert(x, s))
  {
    if s != [] && x.cost > s[0].cost {
      var r := Insert(x, s[1..]);
      InsertSorted(x, s[1..]);
      InsertMembers(x, s[1..]);
      forall k | 0 <= k < |r| ensures s[0].cost <= r[k].cost {
        assert r[k] in r;
        if r[k] != x {
          var m :| 0 <= m < |s[1..]| && s[1..][m] == r[k];
          assert s[m + 1] == r[k];
        }
      }
      assert Insert(x, s) == [s[0]] + r;
    }
  }

  /** The sorted list: ascending by cost and a permutation of the input. */
  function SortByCost(s: seq<Scored>): (r: seq<Scored>)
    ensures multiset(r) == multiset(s) && SortedByCost(r)
  {
    if s == [] then []
    else
      var rest := SortByCost(s[1..]);
      InsertMembers(s[0], rest);
      InsertSorted(s[0], rest);
      assert s == [s[0]] + s[1..];
      Insert(s[0], rest)
  }

  lemma WithCostCons(e: Scored, t: seq<Scored>, d: int)
    ensures WithCost([e] + t, d) == (if e.cost == d then [e] else []) + WithCost(t, d)
  {
    assert ([e] + t)[1..] == t;
  }

  lemma {:induction false} InsertWithCost(x: Scored, s: seq<Scored>, d: int)
    requires SortedByCost(s)
    ensures WithCost(Insert(x, s), d) == (if x.cost == d then [x] else []) + WithCost(s, d)
  {
    if s == [] || x.cost <= s[0].cost {
      WithCostCons(x, s, d);
    } else {
      var r := Insert(x, s[1..]);
      InsertWithCost(x, s[1..], d);
      WithCostCons(s[0], r, d);
      WithCostCons(s[0], s[1..], d);
      assert s == [s[0]] + s[1..];
      if x.cost == d {
        assert s[0].cost != d;
        assert WithCost(Insert(x, s), d) == WithCost(r, d) == [x] + WithCost(s[1..], d);
      } else if s[0].cost == d {
        assert WithCost(Insert(x, s), d) == [s[0]] + WithCost(r, d);
      } else {
        assert WithCost(Insert(x, s), d) == WithCost(r, d);
      }
    }
  }

  /** Stability: for every cost, the pairs of that cost come out in the order they went in. */
  lemma {:induction false} SortStable(s: seq<Scored>, d: int)
    ensures WithCost(SortByCost(s), d) == WithCost(s, d)
  {
    if s != [] {
      SortStable(s[1..], d);
      InsertWithCost(s[0], SortByCost(s[1..]), d);
    }
  }

  lemma {:induction false} WithCostNonEmpty(s: seq<Scored>, k: int)
    requires 0 <= k < |s|
    ensures WithCost(s, s[k].cost) != [] && WithCost(s, s[k].cost)[0] in s
  {
    if k > 0 && s[0].cost != s[k].cost {
      WithCostNonEmpty(s[1..], k - 1);
    }
  }

  /** A list sorted by cost is determined by its per-cost subsequences, so every stable sort
      by cost (Python's included) gives the same list as `SortByCost`. */
  lemma {:induction false} StableSortUnique(a: seq<Scored>, b: seq<Scored>)
    requires SortedByCost(a) && SortedByCost(b)
    requires forall d :: WithCost(a, d) == WithCost(b, d)
    ensures a == b
  {
    if a == [] || b == [] {
      if a != [] {
        WithCostNonEmpty(a, 0);
      } else if b != [] {
        WithCostNonEmpty(b, 0);
      }
    } else {
      WithCostNonEmpty(a, 0);
      WithCostNonEmpty(b, 0);
      var ea, eb := WithCost(b, a[0].cost)[0], WithCost(a, b[0].cost)[0];
      WithCostHead(b, a[0].cost);
      WithCostHead(a, b[0].cost);
      assert a[0].cost == b[0].cost;
      assert WithCost(a, a[0].cost)[0] == a[0] && WithCost(b, b[0].cost)[0] == b[0];
      forall d ensures WithCost(a[1..], d) == WithCost(b[1..], d) {
        var pre := if a[0].cost == d then [a[0]] else [];
        assert WithCost(a, d) == pre + WithCost(a[1..], d);
        assert WithCost(b, d) == pre + WithCost(b[1..], d);
        assert (pre + WithCost(a[1..], d))[|pre|..] == WithCost(a[1..], d);
        assert (pre + WithCost(b[1..], d))[|pre|..] == WithCost(b[1..], d);
      }
      StableSortUnique(a[1..], b[1..]);
      assert a == [a[0]] + a[1..] && b == [b[0]] + b[1..];
    }
  }

  lemma {:induction false} WithCostHead(s: seq<Scored>, d: int)
    requires WithCost(s, d) != []
    ensures WithCost(s, d)[0] in s && WithCost(s, d)[0].cost == d
  {
    if s[0].cost != d {
      WithCostHead(s[1..], d);
    }
  }

  /** `SortByCost` is the stable sort: any cost-sorted list that keeps each cost's pairs in
      input order is exactly `SortByCost` of the input. */
  lemma SortByCostIsTheStableSort(s: seq<Scored>, r: seq<Scored>)
    requires SortedByCost(r) && forall d :: WithCost(r, d) == WithCost(s, d)
    ensures r == SortByCost(s)
  {
    forall d ensures WithCost(r, d) == WithCost(SortByCost(s), d) {
      SortStable(s, d);
    }
    StableSortUnique(r, SortByCost(s));
  }

  /** Ascending by cost and, among equal costs, strictly ascending lexicographically by tab. */
  ghost predicate CostThenLex(s: seq<Scored>)
  {
    forall i, j :: 0 <= i < j < |s| ==>
      s[i].cost < s[j].cost || (s[i].cost == s[j].cost && LexLess(s[i].tab, s[j].tab))
  }

  lemma {:induction false} InsertRanked(x: Scored, s: seq<Scored>)
    requires CostThenLex(s)
    requires forall k :: 0 <= k < |s| ==> LexLess(x.tab, s[k].tab)
    ensures CostThenLex(Insert(x, s))
  {
    if s != [] && x.cost > s[0].cost {
      InsertRanked(x, s[1..]);
      var r := Insert(x, s[1..]);
      InsertMembers(x, s[1..]);
      forall k | 0 <= k < |r|
        ensures s[0].cost < r[k].cost || (s[0].cost == r[k].cost && LexLess(s[0].tab, r[k].tab))
      {
        assert r[k] in r;
        if r[k] != x {
          var m :| 0 <= m < |s[1..]| && s[1..][m] == r[k];
          assert s[m + 1] == r[k];
        }
      }
      assert Insert(x, s) == [s[0]] + r;
    }
  }

  /** When the input pairs are in strictly ascending lexicographic order of their tabs,
      the sorted list is ordered by cost and, within a cost, by that same order. */
  lemma {:induction false} SortByCostRanked(s: seq<Scored>)
    requires forall i, j :: 0 <= i < j < |s| ==> LexLess(s[i].tab, s[j].tab)
    ensures CostThenLex(SortByCost(s))
  {
    if s != [] {
      var rest := SortByCost(s[1..]);
      SortByCostRanked(s[1..]);
      forall k | 0 <= k < |rest| ensures LexLess(s[0].tab, rest[k].tab) {
        assert rest[k] in multiset(s[1..]);
        var m :| 0 <= m < |s[1..]| && s[1..][m] == rest[k];
        assert s[m + 1] == rest[k];
      }
      InsertRanked(s[0], rest);
    }
  }
}
