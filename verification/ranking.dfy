/** Scoring and ranking of the combinations (`TabCalculator._calculate_distance` and
    `TabCalculator._calculate_best_tab` of tab-generator.py). */
module Ranking {
  import opened Combinations
  import opened StableSort

  function Abs(x: int): nat
  {
    if x < 0 then -x else x
  }

  /** The movement cost of a tab: the sum of `|tab[i - 1] - tab[i]|` over adjacent strings,
      accumulated from the first string onwards. */
  function Distance(tab: seq<int>): nat
  {
    if |tab| < 2 then 0 else Distance(tab[..|tab| - 1]) + Abs(tab[|tab| - 2] - tab[|tab| - 1])
  }

  /** The cost is zero exactly when every string is played at the same fret. */
  lemma {:induction false} DistanceZeroIff(tab: seq<int>)
    ensures Distance(tab) == 0 <==> forall i :: 0 <= i < |tab| ==> tab[i] == tab[0]
  {
    if |tab| >= 2 {
      var init := tab[..|tab| - 1];
      DistanceZeroIff(init);
      if Distance(tab) == 0 {
        forall i | 0 <= i < |tab| ensures tab[i] == tab[0] {
          if i < |tab| - 1 {
            assert init[i] == tab[i];
          }
        }
      }
    }
  }

  /** The cost is at least the distance between the first and the last fret. */
  lemma {:induction false} DistanceSpan(tab: seq<int>)
    requires |tab| >= 1
    ensures Distance(tab) >= Abs(tab[|tab| - 1] - tab[0])
  {
    if |tab| >= 2 {
      var init := tab[..|tab| - 1];
      DistanceSpan(init);
    }
  }

  /** `_calculate_distance`: the same sum, computed by the source's loop over `tab[1:]`.
      The source reads `tab[0]` first, so an empty tab is an error there. */
  method CalculateDistance(tab: seq<int>) returns (distance: int)
    requires |tab| >= 1
    ensures distance == Distance(tab)
  {
    distance := 0;
    var lastFret := tab[0];
    for i := 1 to |tab|
      invariant distance == Distance(tab[..i]) && lastFret == tab[i - 1]
    {
      var fret := tab[i];
      assert tab[..i + 1][..i] == tab[..i];
      distance := distance + Abs(lastFret - fret);
      lastFret := fret;
    }
    assert tab[..|tab|] == tab;
  }

  /** `(self._calculate_distance(tab), tab)` for every tab, in order. */
  function Score(tabs: seq<seq<int>>): seq<Scored>
  {
    seq(|tabs|, k requires 0 <= k < |tabs| => Scored(Distance(tabs[k]), tabs[k]))
  }

  /** `[t[1] for t in tabs]`. */
  function Tabs(s: seq<Scored>): seq<seq<int>>
  {
    seq(|s|, k requires 0 <= k < |s| => s[k].tab)
  }

  function Min(a: int, b: int): int
  {
    if a <= b then a else b
  }

  /** The ranked combinations of `lists`, cheapest first, before truncation. */
  function RankedPairs(lists: seq<seq<int>>): seq<Scored>
  {
    SortByCost(Score(Product(lists)))
  }

  /** What `_calculate_best_tab(lists, n)` returns: the first `n` tabs of the stably sorted list. */
  function BestTabs(lists: seq<seq<int>>, n: nat): seq<seq<int>>
  {
    var ranked := Tabs(RankedPairs(lists));
    ranked[..Min(n, |ranked|)]
  }

  /** The tabs of `tabs` whose cost is `d`, in their order in `tabs`. */
  function WithDistance(tabs: seq<seq<int>>, d: int): seq<seq<int>>
  {
    if tabs == [] then [] else (if Distance(tabs[0]) == d then [tabs[0]] else []) + WithDistance(tabs[1..], d)
  }

  ghost predicate Consistent(s: seq<Scored>)
  {
    forall k :: 0 <= k < |s| ==> s[k].cost == Distance(s[k].tab)
  }

  /** Every ranked pair carries its own tab's cost, and that tab is one of the combinations. */
  lemma RankedConsistent(lists: seq<seq<int>>)
    ensures |RankedPairs(lists)| == |Product(lists)|
    ensures Consistent(RankedPairs(lists))
    ensures forall k :: 0 <= k < |RankedPairs(lists)| ==> RankedPairs(lists)[k].tab in Product(lists)
  {
    var scored := Score(Product(lists));
    var r := RankedPairs(lists);
    assert |r| == |multiset(r)| == |multiset(scored)| == |scored|;
    forall k | 0 <= k < |r| ensures r[k].cost == Distance(r[k].tab) && r[k].tab in Product(lists) {
      assert r[k] in multiset(scored);
      var m :| 0 <= m < |scored| && scored[m] == r[k];
    }
  }

  /** A combination that is one of the products appears among the ranked tabs. */
  lemma RankedComplete(lists: seq<seq<int>>, c: seq<int>)
    requires c in Product(lists)
    ensures c in Tabs(RankedPairs(lists))
  {
    var scored := Score(Product(lists));
    var m :| 0 <= m < |Product(lists)| && Product(lists)[m] == c;
    assert scored[m] in multiset(RankedPairs(lists));
    var k :| 0 <= k < |RankedPairs(lists)| && RankedPairs(lists)[k] == scored[m];
    assert Tabs(RankedPairs(lists))[k] == c;
  }

  /** `n` tabs, or all the combinations when there are fewer than `n`. */
  lemma BestTabsLength(lists: seq<seq<int>>, n: nat)
    ensures |BestTabs(lists, n)| == Min(n, SizeProduct(lists))
  {
    RankedConsistent(lists);
    ProductLength(lists);
  }

  /** Every returned tab has one fret per list, and its `i`-th fret is drawn from the `i`-th list. */
  lemma BestTabsDrawn(lists: seq<seq<int>>, n: nat)
    ensures forall k :: 0 <= k < |BestTabs(lists, n)| ==> Drawn(BestTabs(lists, n)[k], lists)
  {
    RankedConsistent(lists);
    forall k | 0 <= k < |BestTabs(lists, n)| ensures Drawn(BestTabs(lists, n)[k], lists) {
      ProductMember(lists, BestTabs(lists, n)[k]);
    }
  }

  /** The returned tabs are in ascending order of cost. */
  lemma BestTabsSorted(lists: seq<seq<int>>, n: nat)
    ensures forall i, j :: 0 <= i < j < |BestTabs(lists, n)| ==>
              Distance(BestTabs(lists, n)[i]) <= Distance(BestTabs(lists, n)[j])
  {
    RankedConsistent(lists);
  }

  /** No combination that was left out costs less than any returned tab. */
  lemma BestTabsOptimal(lists: seq<seq<int>>, n: nat, c: seq<int>)
    requires Drawn(c, lists) && c !in BestTabs(lists, n)
    ensures forall k :: 0 <= k < |BestTabs(lists, n)| ==> Distance(BestTabs(lists, n)[k]) <= Distance(c)
  {
    var r := RankedPairs(lists);
    var best := BestTabs(lists, n);
    RankedConsistent(lists);
    ProductMember(lists, c);
    RankedComplete(lists, c);
    var j :| 0 <= j < |r| && Tabs(r)[j] == c;
  }

  lemma {:induction false} TabsWithCost(s: seq<Scored>, d: int)
    requires Consistent(s)
    ensures Tabs(WithCost(s, d)) == WithDistance(Tabs(s), d)
  {
    if s != [] {
      TabsWithCost(s[1..], d);
      assert Tabs(s)[1..] == Tabs(s[1..]);
      var pre := if s[0].cost == d then [s[0]] else [];
      assert Tabs(pre + WithCost(s[1..], d)) == Tabs(pre) + Tabs(WithCost(s[1..], d));
    }
  }

  lemma {:induction false} WithDistancePrefix(tabs: seq<seq<int>>, m: nat, d: int)
    requires m <= |tabs|
    ensures WithDistance(tabs[..m], d) <= WithDistance(tabs, d)
  {
    if m > 0 {
      WithDistancePrefix(tabs[1..], m - 1, d);
      assert tabs[..m][1..] == tabs[1..][..m - 1];
    }
  }

  /** Ties keep their product order (the sort is stable): for every cost, the returned tabs
      of that cost are the first ones of that cost in `itertools.product` order. */
  lemma BestTabsStable(lists: seq<seq<int>>, n: nat, d: int)
    ensures WithDistance(BestTabs(lists, n), d) <= WithDistance(Product(lists), d)
  {
    var scored := Score(Product(lists));
    var r := RankedPairs(lists);
    RankedConsistent(lists);
    SortStable(scored, d);
    TabsWithCost(r, d);
    TabsWithCost(scored, d);
    assert Tabs(scored) == Product(lists);
    WithDistancePrefix(Tabs(r), Min(n, |r|), d);
  }

  /** When every list is strictly ascending (as the enumerated frets are), the returned tabs
      are ordered by cost and, at equal cost, in strictly ascending lexicographic order. */
  lemma BestTabsRanked(lists: seq<seq<int>>, n: nat)
    requires forall i :: 0 <= i < |lists| ==> StrictlyAscending(lists[i])
    ensures forall i, j :: 0 <= i < j < |BestTabs(lists, n)| ==>
              var a, b := BestTabs(lists, n)[i], BestTabs(lists, n)[j];
              Distance(a) < Distance(b) || (Distance(a) == Distance(b) && LexLess(a, b))
  {
    var scored := Score(Product(lists));
    ProductLexAscending(lists);
    SortByCostRanked(scored);
    RankedConsistent(lists);
  }

  lemma PrefixMember(s: seq<seq<int>>, m: nat, j: nat)
    requires j < |s| && m <= |s|
    ensures j < m ==> s[j] in s[..m]
  {
    if j < m {
      assert s[..m][j] == s[j];
    }
  }

  /** Where `[:n]` cuts inside a cost, the tabs kept are the lexicographically smaller ones:
      an excluded combination that costs as much as a returned tab comes after it. */
  lemma BestTabsCutOff(lists: seq<seq<int>>, n: nat, c: seq<int>)
    requires forall i :: 0 <= i < |lists| ==> StrictlyAscending(lists[i])
    requires Drawn(c, lists) && c !in BestTabs(lists, n)
    ensures forall k :: 0 <= k < |BestTabs(lists, n)| && Distance(BestTabs(lists, n)[k]) == Distance(c) ==>
              LexLess(BestTabs(lists, n)[k], c)
  {
    var r := RankedPairs(lists);
    var best := BestTabs(lists, n);
    RankedConsistent(lists);
    ProductLexAscending(lists);
    SortByCostRanked(Score(Product(lists)));
    ProductMember(lists, c);
    RankedComplete(lists, c);
    var j :| 0 <= j < |r| && Tabs(r)[j] == c;
    PrefixMember(Tabs(r), Min(n, |r|), j);
    forall k | 0 <= k < |best| && Distance(best[k]) == Distance(c) ensures LexLess(best[k], c) {
      assert best[k] == r[k].tab;
    }
  }

  /** `_calculate_best_tab`: score every combination with `_calculate_distance`, sort stably by
      the score and keep the first `n` tabs. */
  method CalculateBestTab(possibleFrets: seq<seq<int>>, n: nat) returns (best: seq<seq<int>>)
    requires |possibleFrets| >= 1
    ensures best == BestTabs(possibleFrets, n)
    ensures |best| == Min(n, SizeProduct(possibleFrets))
    ensures forall k :: 0 <= k < |best| ==> Drawn(best[k], possibleFrets)
    ensures forall i, j :: 0 <= i < j < |best| ==> Distance(best[i]) <= Distance(best[j])
    ensures forall c :: Drawn(c, possibleFrets) && c !in best ==>
              forall k :: 0 <= k < |best| ==> Distance(best[k]) <= Distance(c)
  {
    var combos := Product(possibleFrets);
    var tabs: seq<Scored> := [];
    for k := 0 to |combos|
      invariant tabs == Score(combos[..k])
    {
      ProductMember(possibleFrets, combos[k]);
      var distance := CalculateDistance(combos[k]);
      tabs := tabs + [Scored(distance, combos[k])];
    }
    assert combos[..|combos|] == combos;
    tabs := SortByCost(tabs);
    best := Tabs(tabs)[..Min(n, |tabs|)];
    BestTabsLength(possibleFrets, n);
    BestTabsDrawn(possibleFrets, n);
    BestTabsSorted(possibleFrets, n);
    forall c | Drawn(c, possibleFrets) && c !in best
      ensures forall k :: 0 <= k < |best| ==> Distance(best[k]) <= Distance(c)
    {
      BestTabsOptimal(possibleFrets, n, c);
    }
  }
}
