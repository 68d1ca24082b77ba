/** The cross product of the per-string fret lists, in `itertools.product` order:
    the first list varies slowest and the last list fastest. */
module Combinations {

  /** Each tail with `head` put in front of it, in the order of the tails. */
  function Prepend(head: int, tails: seq<seq<int>>): seq<seq<int>>
  {
    seq(|tails|, k requires 0 <= k < |tails| => [head] + tails[k])
  }

  /** For each head in turn, that head in front of every tail. */
  function Expand(heads: seq<int>, tails: seq<seq<int>>): seq<seq<int>>
  {
    if heads == [] then [] else Prepend(heads[0], tails) + Expand(heads[1..], tails)
  }

  /** `product(*lists)`. The product of no lists is the single empty combination. */
  function Product(lists: seq<seq<int>>): seq<seq<int>>
  {
    if lists == [] then [[]] else Expand(lists[0], Product(lists[1..]))
  }

  /** The number of combinations: the product of the list sizes. */
  function SizeProduct(lists: seq<seq<int>>): nat
  {
    if lists == [] then 1 else |lists[0]| * SizeProduct(lists[1..])
  }

  /** `c` takes its `i`-th entry from the `i`-th list, for every list. */
  ghost predicate Drawn(c: seq<int>, lists: seq<seq<int>>)
  {
    |c| == |lists| && forall i :: 0 <= i < |lists| ==> c[i] in lists[i]
  }

  lemma {:induction false} ExpandLength(heads: seq<int>, tails: seq<seq<int>>)
    ensures |Expand(heads, tails)| == |heads| * |tails|
  {
    if heads != [] {
      ExpandLength(heads[1..], tails);
    }
  }

  /** There are as many combinations as the product of the list sizes. */
  lemma {:induction false} ProductLength(lists: seq<seq<int>>)
    ensures |Product(lists)| == SizeProduct(lists)
  {
    if lists != [] {
      ProductLength(lists[1..]);
      ExpandLength(lists[0], Product(lists[1..]));
    }
  }

  lemma {:induction false} ExpandMember(heads: seq<int>, tails: seq<seq<int>>, c: seq<int>)
    ensures c in Expand(heads, tails) <==> |c| >= 1 && c[0] in heads && c[1..] in tails
  {
    if heads != [] {
      ExpandMember(heads[1..], tails, c);
      var p := Prepend(heads[0], tails);
      if c in p {
        var k :| 0 <= k < |p| && p[k] == c;
        assert c[1..] == tails[k];
      }
      if |c| >= 1 && c[0] == heads[0] && c[1..] in tails {
        var k :| 0 <= k < |tails| && tails[k] == c[1..];
        assert p[k] == c;
      }
      assert forall x :: x in heads <==> x == heads[0] || x in heads[1..];
    }
  }

  /** Completeness and soundness of the product: a sequence is one of the combinations
      exactly when it draws its `i`-th entry from the `i`-th list. */
  lemma {:induction false} ProductMember(lists: seq<seq<int>>, c: seq<int>)
    ensures c in Product(lists) <==> Drawn(c, lists)
  {
    if lists == [] {
      assert c in Product(lists) <==> c == [];
    } else {
      ExpandMember(lists[0], Product(lists[1..]), c);
      if |c| >= 1 {
        ProductMember(lists[1..], c[1..]);
        if Drawn(c, lists) {
          forall i | 0 <= i < |lists[1..]| ensures c[1..][i] in lists[1..][i] {
            assert c[1..][i] == c[i + 1];
          }
        }
        if c[0] in lists[0] && Drawn(c[1..], lists[1..]) {
          forall i | 0 <= i < |lists| ensures c[i] in lists[i] {
            if i > 0 {
              assert c[i] == c[1..][i - 1];
            }
          }
        }
      }
    }
  }

  /** Strict lexicographic order on sequences of frets. */
  predicate LexLess(a: seq<int>, b: seq<int>)
  {
    a != [] && b != [] && (a[0] < b[0] || (a[0] == b[0] && LexLess(a[1..], b[1..])))
  }

  ghost predicate StrictlyAscending(s: seq<int>)
  {
    forall i, j :: 0 <= i < j < |s| ==> s[i] < s[j]
  }

  ghost predicate LexAscending(combos: seq<seq<int>>)
  {
    forall i, j :: 0 <= i < j < |combos| ==> LexLess(combos[i], combos[j])
  }

  lemma {:induction false} ExpandLexAscending(heads: seq<int>, tails: seq<seq<int>>)
    requires StrictlyAscending(heads) && LexAscending(tails)
    ensures LexAscending(Expand(heads, tails))
  {
    if heads != [] {
      var p := Prepend(heads[0], tails);
      var rest := Expand(heads[1..], tails);
      ExpandLexAscending(heads[1..], tails);
      forall i, j | 0 <= i < j < |p + rest| ensures LexLess((p + rest)[i], (p + rest)[j]) {
        if j < |p| {
          assert (p + rest)[i][1..] == tails[i] && (p + rest)[j][1..] == tails[j];
        } else if i < |p| {
          var c := rest[j - |p|];
          ExpandMember(heads[1..], tails, c);
          assert c[0] in heads[1..];
        }
      }
    }
  }

  /** When every list is strictly ascending, the product lists its combinations in
      strictly ascending lexicographic order. */
  lemma {:induction false} ProductLexAscending(lists: seq<seq<int>>)
    requires forall i :: 0 <= i < |lists| ==> StrictlyAscending(lists[i])
    ensures LexAscending(Product(lists))
  {
    if lists != [] {
      ProductLexAscending(lists[1..]);
      assert StrictlyAscending(lists[0]);
      ExpandLexAscending(lists[0], Product(lists[1..]));
    }
  }
}
