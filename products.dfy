/** Cartesian products in the order of `itertools.product`: the first factor
    varies slowest, the last fastest. */
module Products {

  /** Every prefix in `ps`, in order, extended by every element of `xs`. */
  function Extend<T>(ps: seq<seq<T>>, xs: seq<T>): seq<seq<T>>
  {
    if |ps| == 0 then []
    else seq(|xs|, j requires 0 <= j < |xs| => ps[0] + [xs[j]]) + Extend(ps[1..], xs)
  }

  /** `itertools.product(*lists)`; the product of no lists is one empty tuple. */
  function Product<T>(lists: seq<seq<T>>): seq<seq<T>>
  {
    if |lists| == 0 then [[]]
    else Extend(Product(lists[..|lists| - 1]), lists[|lists| - 1])
  }

  /** k1 * k2 * ... * kn for the lengths ki of the lists. */
  function LengthProduct<T>(lists: seq<seq<T>>): nat
  {
    if |lists| == 0 then 1 else LengthProduct(lists[..|lists| - 1]) * |lists[|lists| - 1]|
  }

  lemma {:induction false} ExtendLength<T>(ps: seq<seq<T>>, xs: seq<T>)
    ensures |Extend(ps, xs)| == |ps| * |xs|
  {
    if |ps| > 0 {
      ExtendLength(ps[1..], xs);
      assert |ps| * |xs| == |xs| + (|ps| - 1) * |xs|;
    }
  }

  /** Prefix `i` extended by element `j` sits at position `i * |xs| + j`. */
  lemma {:induction false} ExtendIndex<T>(ps: seq<seq<T>>, xs: seq<T>, i: nat, j: nat)
    requires i < |ps| && j < |xs|
    ensures i * |xs| + j < |Extend(ps, xs)| && Extend(ps, xs)[i * |xs| + j] == ps[i] + [xs[j]]
  {
    ExtendLength(ps, xs);
    if i > 0 {
      ExtendIndex(ps[1..], xs, i - 1, j);
      assert i * |xs| + j == |xs| + ((i - 1) * |xs| + j);
    }
  }

  /** The members of an extension are exactly the prefixes extended by an
      element. */
  lemma {:induction false} ExtendMember<T>(ps: seq<seq<T>>, xs: seq<T>, c: seq<T>)
    ensures c in Extend(ps, xs) <==> exists i, j :: 0 <= i < |ps| && 0 <= j < |xs| && c == ps[i] + [xs[j]]
  {
    if |ps| > 0 {
      ExtendMember(ps[1..], xs, c);
      var block := seq(|xs|, j requires 0 <= j < |xs| => ps[0] + [xs[j]]);
      assert Extend(ps, xs) == block + Extend(ps[1..], xs);
      if c in block {
        var j :| 0 <= j < |xs| && block[j] == c;
        assert c == ps[0] + [xs[j]];
      } else if c in Extend(ps[1..], xs) {
        var i, j :| 0 <= i < |ps[1..]| && 0 <= j < |xs| && c == ps[1..][i] + [xs[j]];
        assert c == ps[i + 1] + [xs[j]];
      }
      if exists i, j :: 0 <= i < |ps| && 0 <= j < |xs| && c == ps[i] + [xs[j]] {
        var i, j :| 0 <= i < |ps| && 0 <= j < |xs| && c == ps[i] + [xs[j]];
        if i == 0 {
          assert block[j] == c;
        } else {
          assert c == ps[1..][i - 1] + [xs[j]];
        }
      }
    }
  }

  /** The product has k1 * ... * kn tuples. */
  lemma {:induction false} ProductLength<T>(lists: seq<seq<T>>)
    ensures |Product(lists)| == LengthProduct(lists)
  {
    if |lists| > 0 {
      ProductLength(lists[..|lists| - 1]);
      ExtendLength(Product(lists[..|lists| - 1]), lists[|lists| - 1]);
    }
  }

  /** A tuple is in the product exactly when it picks, for every list, one of
      that list's elements in that list's position. */
  lemma {:induction false} ProductMember<T>(lists: seq<seq<T>>, c: seq<T>)
    ensures c in Product(lists) <==> |c| == |lists| && forall k :: 0 <= k < |lists| ==> c[k] in lists[k]
  {
    if |lists| > 0 {
      var n := |lists| - 1;
      var front := lists[..n];
      var ps := Product(front);
      ExtendMember(ps, lists[n], c);
      if c in Product(lists) {
        var i, j :| 0 <= i < |ps| && 0 <= j < |lists[n]| && c == ps[i] + [lists[n][j]];
        ProductMember(front, ps[i]);
        forall k | 0 <= k < |lists| ensures c[k] in lists[k] {
          if k < n { assert c[k] == ps[i][k] && front[k] == lists[k]; }
        }
      }
      if |c| == |lists| && forall k :: 0 <= k < |lists| ==> c[k] in lists[k] {
        var c' := c[..n];
        forall k | 0 <= k < n ensures c'[k] in front[k] {
          assert c'[k] == c[k] && front[k] == lists[k];
        }
        ProductMember(front, c');
        var i :| 0 <= i < |ps| && ps[i] == c';
        var j :| 0 <= j < |lists[n]| && lists[n][j] == c[n];
        assert c == ps[i] + [lists[n][j]];
      }
    }
  }

  /** `itertools.product(xs, ys)` as pairs. */
  function Pairs<A, B>(xs: seq<A>, ys: seq<B>): seq<(A, B)>
  {
    if |xs| == 0 then []
    else seq(|ys|, j requires 0 <= j < |ys| => (xs[0], ys[j])) + Pairs(xs[1..], ys)
  }

  lemma {:induction false} PairsLength<A, B>(xs: seq<A>, ys: seq<B>)
    ensures |Pairs(xs, ys)| == |xs| * |ys|
  {
    if |xs| > 0 {
      PairsLength(xs[1..], ys);
      assert |xs| * |ys| == |ys| + (|xs| - 1) * |ys|;
    }
  }

  /** Pair (i, j) sits at position `i * |ys| + j`. */
  lemma {:induction false} PairsAt<A, B>(xs: seq<A>, ys: seq<B>, i: nat, j: nat)
    requires i < |xs| && j < |ys|
    ensures i * |ys| + j < |Pairs(xs, ys)| && Pairs(xs, ys)[i * |ys| + j] == (xs[i], ys[j])
  {
    PairsLength(xs, ys);
    if i > 0 {
      PairsAt(xs[1..], ys, i - 1, j);
      assert i * |ys| + j == |ys| + ((i - 1) * |ys| + j);
    }
  }

  /** A pair occurs exactly when its first element is in `xs` and its second in `ys`. */
  lemma {:induction false} PairsMember<A, B>(xs: seq<A>, ys: seq<B>)
    ensures forall p :: p in Pairs(xs, ys) <==> p.0 in xs && p.1 in ys
  {
    if |xs| > 0 {
      PairsMember(xs[1..], ys);
      var row := seq(|ys|, j requires 0 <= j < |ys| => (xs[0], ys[j]));
      assert Pairs(xs, ys) == row + Pairs(xs[1..], ys);
      forall p ensures p in Pairs(xs, ys) <==> p.0 in xs && p.1 in ys {
        if p in row {
          var j :| 0 <= j < |ys| && row[j] == p;
        }
        if p.0 == xs[0] && p.1 in ys {
          var j :| 0 <= j < |ys| && ys[j] == p.1;
          assert row[j] == p;
        }
        if p.0 in xs && p.0 != xs[0] {
          assert p.0 in xs[1..];
        }
      }
    }
  }
}
