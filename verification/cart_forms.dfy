/**
 * The validation rules of dacp/cart/forms.py: AddToCartForm, whose size field
 * depends on which sizes of the product are in stock, and the quantity bound
 * UpdateCartItemForm adds.
 */
module CartForms {
  import opened Wrappers
  import opened Store

  /** One integer field of a POST body: absent, not an integer, or an integer. */
  datatype Input = Missing | Malformed | Given(v: int)

  /** `product.product_sizes.filter(stock__gt=0)`, in primary-key order. */
  function InStockSizes(rows: seq<ProductSize>, product: nat): (r: seq<ProductSize>)
    ensures forall x :: x in r ==> x in rows && x.product == product && x.stock > 0
    ensures forall x :: x in rows && x.product == product && x.stock > 0 ==> x in r
    ensures IdsIncreasing(rows) ==> IdsIncreasing(r)
  {
    if |rows| == 0 then []
    else
      var rest := InStockSizes(rows[1..], product);
      assert forall x :: x in rest ==> x in rows[1..];
      if rows[0].product == product && rows[0].stock > 0 then [rows[0]] + rest else rest
  }

  /** The size field of an AddToCartForm built for `product`. */
  datatype SizeField =
    | OptionalInteger
    | RequiredChoice(choices: seq<(nat, string)>, initial: nat)

  /** The (id, size name) choices offered: one per in-stock size, in the same order. */
  function SizeChoices(rows: seq<ProductSize>, product: nat): (r: seq<(nat, string)>)
    ensures var sizes := InStockSizes(rows, product);
      |r| == |sizes| && forall i :: 0 <= i < |r| ==> r[i] == (sizes[i].id, sizes[i].sizeName)
  {
    var sizes := InStockSizes(rows, product);
    seq(|sizes|, i requires 0 <= i < |sizes| => (sizes[i].id, sizes[i].sizeName))
  }

  /**
   * AddToCartForm.__init__: when some size of the product is in stock the size
   * becomes a required choice among exactly those sizes, with the first one
   * preselected; otherwise it stays an optional integer.
   */
  function AddToCartSizeField(rows: seq<ProductSize>, product: nat): (f: SizeField)
    ensures f.OptionalInteger? <==> forall x :: x in rows && x.product == product ==> x.stock == 0
    ensures f.RequiredChoice? ==> forall id :: IsChoice(f, id) <==> IsInStockSize(rows, product, id)
    ensures f.RequiredChoice? ==> f.initial == InStockSizes(rows, product)[0].id
  {
    var sizes := InStockSizes(rows, product);
    if |sizes| == 0 then OptionalInteger
    else
      var choices := SizeChoices(rows, product);
      var f := RequiredChoice(choices, sizes[0].id);
      assert forall id :: IsChoice(f, id) ==> IsInStockSize(rows, product, id) by {
        forall id | IsChoice(f, id) ensures IsInStockSize(rows, product, id) {
          var i :| 0 <= i < |choices| && choices[i].0 == id;
          assert sizes[i] in sizes;
        }
      }
      assert forall id :: IsInStockSize(rows, product, id) ==> IsChoice(f, id) by {
        forall id | IsInStockSize(rows, product, id) ensures IsChoice(f, id) {
          var x :| x in rows && x.id == id && x.product == product && x.stock > 0;
          var i :| 0 <= i < |sizes| && sizes[i] == x;
          assert choices[i].0 == id;
        }
      }
      f
  }

  /** The size a valid AddToCartForm hands to the view, as `cleaned_data["size_id"]`. */
  datatype CleanSize =
    | NoSize                  // optional integer left empty: None
    | IntegerSize(v: int)     // optional integer given
    | ChosenSize(id: nat)     // a choice, cleaned as the (non-empty) string of its id

  datatype AddToCartData = AddToCartData(size: CleanSize, quantity: int)

  /** Some row of the table is a size of `product` with primary key `id` and stock. */
  ghost predicate IsInStockSize(rows: seq<ProductSize>, product: nat, id: int)
  {
    exists x :: x in rows && x.id == id && x.product == product && x.stock > 0
  }

  predicate IsChoice(f: SizeField, v: int)
    requires f.RequiredChoice?
  {
    exists i :: 0 <= i < |f.choices| && f.choices[i].0 == v
  }

  /**
   * `form.is_valid()` and `cleaned_data`: the quantity must be an integer of at
   * least 1 (it has no default for a bound form); the size must be one of the
   * offered choices when it is a choice field, and an integer or absent otherwise.
   */
  function CleanAddToCart(f: SizeField, size: Input, quantity: Input): (r: Option<AddToCartData>)
    ensures r.Some? <==>
      quantity.Given? && quantity.v >= 1 &&
      (if f.RequiredChoice? then size.Given? && IsChoice(f, size.v) else !size.Malformed?)
    ensures r.Some? ==> quantity == Given(r.value.quantity)
    ensures r.Some? && f.RequiredChoice? ==> r.value.size.ChosenSize? && size == Given(r.value.size.id)
    ensures r.Some? && f.OptionalInteger? ==>
      (size.Missing? ==> r.value.size.NoSize?) && (size.Given? ==> r.value.size == IntegerSize(size.v))
  {
    if !(quantity.Given? && quantity.v >= 1) then None
    else match f
      case RequiredChoice(_, _) =>
        if size.Given? && IsChoice(f, size.v) then Some(AddToCartData(ChosenSize(size.v), quantity.v))
        else None
      case OptionalInteger =>
        match size
        case Missing => Some(AddToCartData(NoSize, quantity.v))
        case Malformed => None
        case Given(v) => Some(AddToCartData(IntegerSize(v), quantity.v))
  }

  /**
   * UpdateCartItemForm: when the item has a ProductSize the quantity gains a
   * MaxValueValidator at that size's stock. The base field's own validators
   * belong to the CartItem model, which is not part of this model.
   */
  function UpdateFormAccepts(quantity: int, sizeStock: Option<nat>): (ok: bool)
    ensures sizeStock.Some? ==> (ok <==> quantity <= sizeStock.value)
    ensures sizeStock.None? ==> ok
  {
    match sizeStock
    case None => true
    case Some(stock) => quantity <= stock
  }
}
