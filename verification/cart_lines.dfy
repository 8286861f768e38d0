/**
 * The CartItem table of the cart engine as a sequence of lines, and the
 * quantity sums the cart reads off it: `Cart.total_items` (every line of a
 * cart) and the quantity held for one (cart, product, size).
 *
 * The CartItem model and `Cart.total_items` live in dacp/cart/models.py, which
 * is not part of this model: a line's fields and "total_items is the sum of the
 * cart's quantities" are assumptions taken from how dacp/cart/views.py uses them.
 */
module CartLines {
  import opened Wrappers

  datatype CartItem = CartItem(id: nat, cart: nat, product: nat, sizeId: nat, quantity: nat)

  /** The lines a quantity sum ranges over: every line of a cart, or the line of one (cart, product, size). */
  datatype Scope = WholeCart(cart: nat) | Line(cart: nat, product: nat, sizeId: nat)

  predicate InScope(l: CartItem, sc: Scope)
  {
    l.cart == sc.cart && (sc.Line? ==> l.product == sc.product && l.sizeId == sc.sizeId)
  }

  /** The (cart, product, size) a line is for; at most one line may have it. */
  function KeyOf(l: CartItem): Scope
  {
    Line(l.cart, l.product, l.sizeId)
  }

  function Weight(l: CartItem, sc: Scope): nat
  {
    if InScope(l, sc) then l.quantity else 0
  }

  /** Sum of the quantities of the lines in scope `sc`. */
  function Total(lines: seq<CartItem>, sc: Scope): nat
  {
    if |lines| == 0 then 0 else Weight(lines[0], sc) + Total(lines[1..], sc)
  }

  /** `Cart.total_items`, recomputed from the current lines on every read. */
  function CartTotal(lines: seq<CartItem>, cart: nat): nat
  {
    Total(lines, WholeCart(cart))
  }

  /** Distinct ids, and at most one line per (cart, product, size). */
  ghost predicate Distinct(lines: seq<CartItem>)
  {
    forall i, j :: 0 <= i < j < |lines| ==> lines[i].id != lines[j].id && KeyOf(lines[i]) != KeyOf(lines[j])
  }

  /** The cart-wide invariant: ids below the next id to hand out, every quantity at least 1, no duplicates. */
  ghost predicate LinesValid(lines: seq<CartItem>, nextId: nat)
  {
    (forall i :: 0 <= i < |lines| ==> lines[i].id < nextId && lines[i].quantity >= 1) &&
    Distinct(lines)
  }

  /** `cart.items.filter(product=..., product_size=...).first()`. */
  function FindLine(lines: seq<CartItem>, cart: nat, product: nat, sizeId: nat): (r: Option<nat>)
    ensures r.Some? ==> r.value < |lines| && KeyOf(lines[r.value]) == Line(cart, product, sizeId)
    ensures r.None? ==> forall i :: 0 <= i < |lines| ==> KeyOf(lines[i]) != Line(cart, product, sizeId)
  {
    if |lines| == 0 then None
    else if KeyOf(lines[0]) == Line(cart, product, sizeId) then Some(0)
    else match FindLine(lines[1..], cart, product, sizeId)
      case None => None
      case Some(k) => Some(k + 1)
  }

  /** The line with primary key `id`, provided it belongs to `cart`. */
  function FindItem(lines: seq<CartItem>, cart: nat, id: nat): (r: Option<nat>)
    ensures r.Some? ==> r.value < |lines| && lines[r.value].id == id && lines[r.value].cart == cart
    ensures r.None? ==> forall i :: 0 <= i < |lines| ==> !(lines[i].id == id && lines[i].cart == cart)
  {
    if |lines| == 0 then None
    else if lines[0].id == id && lines[0].cart == cart then Some(0)
    else match FindItem(lines[1..], cart, id)
      case None => None
      case Some(k) => Some(k + 1)
  }

  /** Deleting the line at index `i`. */
  function RemoveAt(lines: seq<CartItem>, i: nat): (r: seq<CartItem>)
    requires i < |lines|
    ensures |r| == |lines| - 1
    ensures forall k :: 0 <= k < |r| ==> r[k] == lines[if k < i then k else k + 1]
  {
    lines[..i] + lines[i + 1..]
  }

  /** `Cart.clear()`: every line of `cart` deleted, the lines of other carts kept. */
  function WithoutCart(lines: seq<CartItem>, cart: nat): (r: seq<CartItem>)
    ensures forall l :: l in r <==> l in lines && l.cart != cart
  {
    if |lines| == 0 then []
    else if lines[0].cart == cart then WithoutCart(lines[1..], cart)
    else [lines[0]] + WithoutCart(lines[1..], cart)
  }

  lemma {:induction false} TotalConcat(a: seq<CartItem>, b: seq<CartItem>, sc: Scope)
    ensures Total(a + b, sc) == Total(a, sc) + Total(b, sc)
  {
    if |a| == 0 {
      assert a + b == b;
    } else {
      assert (a + b)[1..] == a[1..] + b;
      TotalConcat(a[1..], b, sc);
    }
  }

  lemma TotalSplit(lines: seq<CartItem>, i: nat, sc: Scope)
    requires i < |lines|
    ensures Total(lines, sc) == Total(lines[..i], sc) + Weight(lines[i], sc) + Total(lines[i + 1..], sc)
  {
    assert lines == lines[..i] + ([lines[i]] + lines[i + 1..]);
    TotalConcat(lines[..i], [lines[i]] + lines[i + 1..], sc);
    TotalConcat([lines[i]], lines[i + 1..], sc);
  }

  /** Replacing one line changes every sum by the difference of that line's weights. */
  lemma TotalSet(lines: seq<CartItem>, i: nat, x: CartItem, sc: Scope)
    requires i < |lines|
    ensures Total(lines[i := x], sc) + Weight(lines[i], sc) == Total(lines, sc) + Weight(x, sc)
  {
    var updated := lines[i := x];
    TotalSplit(lines, i, sc);
    TotalSplit(updated, i, sc);
    assert updated[..i] == lines[..i];
    assert updated[i + 1..] == lines[i + 1..];
  }

  lemma TotalAppend(lines: seq<CartItem>, x: CartItem, sc: Scope)
    ensures Total(lines + [x], sc) == Total(lines, sc) + Weight(x, sc)
  {
    TotalConcat(lines, [x], sc);
  }

  lemma TotalRemoveAt(lines: seq<CartItem>, i: nat, sc: Scope)
    requires i < |lines|
    ensures Total(RemoveAt(lines, i), sc) + Weight(lines[i], sc) == Total(lines, sc)
  {
    TotalSplit(lines, i, sc);
    TotalConcat(lines[..i], lines[i + 1..], sc);
  }

  /** After clearing a cart none of its sums hold anything, and every other cart's sums are as before. */
  lemma {:induction false} TotalWithoutCart(lines: seq<CartItem>, cart: nat, sc: Scope)
    ensures Total(WithoutCart(lines, cart), sc) == if sc.cart == cart then 0 else Total(lines, sc)
  {
    if |lines| > 0 {
      TotalWithoutCart(lines[1..], cart, sc);
      if lines[0].cart != cart {
        assert ([lines[0]] + WithoutCart(lines[1..], cart))[1..] == WithoutCart(lines[1..], cart);
      }
    }
  }

  /** Under the invariant, the sum over a line's own key is exactly that line's quantity. */
  lemma {:induction false} TotalOfKey(lines: seq<CartItem>, i: nat)
    requires Distinct(lines)
    requires i < |lines|
    ensures Total(lines, KeyOf(lines[i])) == lines[i].quantity
  {
    var sc := KeyOf(lines[i]);
    TotalSplit(lines, i, sc);
    TotalOfOthers(lines[..i], sc);
    TotalOfOthers(lines[i + 1..], sc);
  }

  /** No line in scope: nothing summed. */
  lemma {:induction false} TotalOfOthers(lines: seq<CartItem>, sc: Scope)
    requires forall k :: 0 <= k < |lines| ==> !InScope(lines[k], sc)
    ensures Total(lines, sc) == 0
  {
    if |lines| > 0 {
      TotalOfOthers(lines[1..], sc);
    }
  }

  lemma DistinctRemoveAt(lines: seq<CartItem>, i: nat)
    requires Distinct(lines)
    requires i < |lines|
    ensures Distinct(RemoveAt(lines, i))
  {
    var r := RemoveAt(lines, i);
    forall a, b | 0 <= a < b < |r|
      ensures r[a].id != r[b].id && KeyOf(r[a]) != KeyOf(r[b])
    {
      assert r[a] == lines[if a < i then a else a + 1];
      assert r[b] == lines[if b < i then b else b + 1];
    }
  }

  lemma {:induction false} DistinctWithoutCart(lines: seq<CartItem>, cart: nat)
    requires Distinct(lines)
    ensures Distinct(WithoutCart(lines, cart))
  {
    if |lines| > 0 {
      assert Distinct(lines[1..]);
      DistinctWithoutCart(lines[1..], cart);
      if lines[0].cart != cart {
        var rest := WithoutCart(lines[1..], cart);
        var r := [lines[0]] + rest;
        forall a, b | 0 <= a < b < |r|
          ensures r[a].id != r[b].id && KeyOf(r[a]) != KeyOf(r[b])
        {
          if a == 0 {
            assert r[b] == rest[b - 1];
            assert rest[b - 1] in lines[1..];
          } else {
            assert r[a] == rest[a - 1] && r[b] == rest[b - 1];
          }
        }
      }
    }
  }

  /** Setting one line's quantity to q >= 1 keeps the invariant. */
  lemma SetQuantityKeepsValid(lines: seq<CartItem>, nextId: nat, i: nat, q: nat)
    requires LinesValid(lines, nextId)
    requires i < |lines| && q >= 1
    ensures LinesValid(lines[i := lines[i].(quantity := q)], nextId)
  {
    var r := lines[i := lines[i].(quantity := q)];
    assert forall k :: 0 <= k < |r| ==> r[k].id == lines[k].id && KeyOf(r[k]) == KeyOf(lines[k]);
  }

  /** A new line with a fresh id for a key no line has keeps the invariant. */
  lemma AppendKeepsValid(lines: seq<CartItem>, nextId: nat, line: CartItem)
    requires LinesValid(lines, nextId)
    requires line.id == nextId && line.quantity >= 1
    requires forall k :: 0 <= k < |lines| ==> KeyOf(lines[k]) != KeyOf(line)
    ensures LinesValid(lines + [line], nextId + 1)
  {
  }

  lemma RemoveAtKeepsValid(lines: seq<CartItem>, nextId: nat, i: nat)
    requires LinesValid(lines, nextId)
    requires i < |lines|
    ensures LinesValid(RemoveAt(lines, i), nextId)
  {
    DistinctRemoveAt(lines, i);
  }

  lemma WithoutCartKeepsValid(lines: seq<CartItem>, nextId: nat, cart: nat)
    requires LinesValid(lines, nextId)
    ensures LinesValid(WithoutCart(lines, cart), nextId)
  {
    DistinctWithoutCart(lines, cart);
    var r := WithoutCart(lines, cart);
    forall k | 0 <= k < |r| ensures r[k].id < nextId && r[k].quantity >= 1 {
      assert r[k] in lines;
    }
  }
}
