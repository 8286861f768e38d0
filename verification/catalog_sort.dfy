/**
 * The catalog orders: `order_by("price")`, `order_by("-price")` and
 * `order_by("-created_at")`, each as an integer rank that must not decrease
 * along the result.
 */
module CatalogSort {
  import opened Store

  datatype Ordering = PriceLow | PriceHigh | Newest

  function Rank(o: Ordering, p: Product): int
  {
    match o
    case PriceLow => p.priceCents
    case PriceHigh => -p.priceCents
    case Newest => -p.createdAt
  }

  ghost predicate SortedBy(s: seq<Product>, o: Ordering)
  {
    forall i, j :: 0 <= i < j < |s| ==> Rank(o, s[i]) <= Rank(o, s[j])
  }

  lemma ConsSorted(h: Product, t: seq<Product>, o: Ordering)
    requires SortedBy(t, o)
    requires forall y :: y in t ==> Rank(o, h) <= Rank(o, y)
    ensures SortedBy([h] + t, o)
  {
    var r := [h] + t;
    forall i, j | 0 <= i < j < |r| ensures Rank(o, r[i]) <= Rank(o, r[j]) {
      if i > 0 {
        assert r[i] == t[i - 1] && r[j] == t[j - 1];
      } else {
        assert r[j] == t[j - 1];
        assert t[j - 1] in t;
      }
    }
  }

  function Insert(x: Product, s: seq<Product>, o: Ordering): (r: seq<Product>)
    requires SortedBy(s, o)
    ensures SortedBy(r, o)
    ensures multiset(r) == multiset(s) + multiset{x}
  {
    if |s| == 0 || Rank(o, x) <= Rank(o, s[0]) then [x] + s
    else
      var rest := Insert(x, s[1..], o);
      assert s == [s[0]] + s[1..];
      forall y | y in rest ensures Rank(o, s[0]) <= Rank(o, y) {
        assert y in multiset(rest);
        if y != x {
          assert y in multiset(s[1..]);
          var j :| 0 <= j < |s[1..]| && s[1..][j] == y;
          assert s[j + 1] == y;
        }
      }
      ConsSorted(s[0], rest, o);
      [s[0]] + rest
  }

  /** A sorted permutation: the rows of `s` in the order `o` asks for. */
  function SortBy(s: seq<Product>, o: Ordering): (r: seq<Product>)
    ensures SortedBy(r, o)
    ensures multiset(r) == multiset(s)
  {
    if |s| == 0 then []
    else
      assert s == [s[0]] + s[1..];
      Insert(s[0], SortBy(s[1..], o), o)
  }
}
