/**
 * The cart engine of dacp/cart/views.py: resolving the session's cart, adding a
 * product size, setting a line's quantity, removing a line and clearing the
 * cart. The database rows the views read and write are the fields of a
 * CartStore; each handler is one sequential step that either fails with the
 * error it reports or commits one change to the CartItem table. No handler
 * writes a ProductSize stock counter.
 */
module CartViews {
  import opened Wrappers
  import opened Store
  import opened CartForms
  import opened CartLines

  /** What a handler reports instead of committing a change. */
  datatype CartError =
    | NotFound                                // get_object_or_404: an HTTP 404
    | InvalidForm                             // "Invalid form data"
    | NoSizesAvailable                        // "No sizes available"
    | OnlyAvailable(available: nat)           // "Only N items available"
    | CannotAdd(requested: nat, more: int)    // "Can't add Q items. Only M more available."
    | InvalidQuantityFormat                   // "Invalid quantity format"
    | InvalidQuantity                         // "Invalid quantity"
    | ItemNotFound                            // "Item not found"

  /** The response of a handler, reduced to what it says about the store. */
  datatype Outcome =
    | Added(itemId: nat, totalItems: nat)     // the JSON `cart_item_id` and `total_items`
    | Done                                    // the cart re-rendered, or "Cart cleared"
    | Failed(error: CartError)

  /** Row `sizeId` exists and is a size of `product`. */
  predicate SizeOfProduct(sizes: seq<ProductSize>, sizeId: nat, product: nat)
  {
    match FindSize(sizes, sizeId)
    case Some(k) => sizes[k].product == product
    case None => false
  }

  /** `get_object_or_404(ProductSize, id=size_id, product=product)`. */
  function FindProductSize(sizes: seq<ProductSize>, id: int, product: nat): (r: Option<nat>)
    ensures r.Some? ==> r.value < |sizes| && sizes[r.value].id == id && sizes[r.value].product == product
    ensures r.None? ==> forall k :: 0 <= k < |sizes| ==> !(sizes[k].id == id && sizes[k].product == product)
  {
    if |sizes| == 0 then None
    else if sizes[0].id == id && sizes[0].product == product then Some(0)
    else match FindProductSize(sizes[1..], id, product)
      case None => None
      case Some(k) => Some(k + 1)
  }

  /** `product.product_sizes.filter(stock__gt=0).first()`. */
  function FirstInStock(sizes: seq<ProductSize>, product: nat): (r: Option<nat>)
    ensures r.Some? ==> r.value < |sizes| && sizes[r.value].product == product && sizes[r.value].stock > 0
    ensures r.Some? ==> forall j :: 0 <= j < r.value ==> !(sizes[j].product == product && sizes[j].stock > 0)
    ensures r.None? ==> forall j :: 0 <= j < |sizes| ==> !(sizes[j].product == product && sizes[j].stock > 0)
  {
    if |sizes| == 0 then None
    else if sizes[0].product == product && sizes[0].stock > 0 then Some(0)
    else match FirstInStock(sizes[1..], product)
      case None => None
      case Some(k) => Some(k + 1)
  }

  /** The view's `if size_id:` test: a choice is a non-empty string, an integer counts unless it is 0. */
  predicate SizeGiven(size: CleanSize)
  {
    size.ChosenSize? || (size.IntegerSize? && size.v != 0)
  }

  function SizeIdOf(size: CleanSize): int
    requires SizeGiven(size)
  {
    if size.ChosenSize? then size.id else size.v
  }

  /**
   * The size selection of AddToCartView: a given size must be a row of the
   * product (else 404); with none given, the first in-stock size of the
   * product in primary-key order, else "No sizes available".
   */
  function ResolveSize(sizes: seq<ProductSize>, product: nat, size: CleanSize): (r: Result<nat, CartError>)
    ensures r.Ok? ==> r.value < |sizes| && sizes[r.value].product == product
    ensures SizeGiven(size) ==>
      (r.Ok? ==> sizes[r.value].id == SizeIdOf(size)) &&
      (r.Err? <==> forall k :: 0 <= k < |sizes| ==> !(sizes[k].id == SizeIdOf(size) && sizes[k].product == product)) &&
      (r.Err? ==> r.error == NotFound)
    ensures !SizeGiven(size) ==>
      (r.Ok? ==> sizes[r.value].stock > 0 &&
                 forall j :: 0 <= j < r.value ==> !(sizes[j].product == product && sizes[j].stock > 0)) &&
      (r.Err? <==> forall k :: 0 <= k < |sizes| ==> !(sizes[k].product == product && sizes[k].stock > 0)) &&
      (r.Err? ==> r.error == NoSizesAvailable)
  {
    if SizeGiven(size) then
      match FindProductSize(sizes, SizeIdOf(size), product)
      case Some(k) => Ok(k)
      case None => Err(NotFound)
    else
      match FirstInStock(sizes, product)
      case Some(k) => Ok(k)
      case None => Err(NoSizesAvailable)
  }

  /** In primary-key order the first in-stock size is the in-stock size with the smallest id. */
  lemma FirstInStockHasSmallestId(sizes: seq<ProductSize>, product: nat)
    requires IdsIncreasing(sizes)
    requires FirstInStock(sizes, product).Some?
    ensures var k := FirstInStock(sizes, product).value;
      forall x :: x in sizes && x.product == product && x.stock > 0 ==> sizes[k].id <= x.id
  {
    var k := FirstInStock(sizes, product).value;
    forall x | x in sizes && x.product == product && x.stock > 0 ensures sizes[k].id <= x.id {
      var j :| 0 <= j < |sizes| && sizes[j] == x;
      assert k <= j;
    }
  }

  /** The first in-stock size is the head of the in-stock list the form's choices are built from. */
  lemma {:induction false} FirstInStockIsHead(sizes: seq<ProductSize>, product: nat)
    ensures FirstInStock(sizes, product).Some? <==> |InStockSizes(sizes, product)| > 0
    ensures FirstInStock(sizes, product).Some? ==>
      sizes[FirstInStock(sizes, product).value] == InStockSizes(sizes, product)[0]
  {
    if |sizes| > 0 {
      FirstInStockIsHead(sizes[1..], product);
    }
  }

  /** The size the view would pick on its own is the one AddToCartForm preselects. */
  lemma FirstInStockIsFormDefault(sizes: seq<ProductSize>, product: nat)
    ensures FirstInStock(sizes, product).Some? <==> AddToCartSizeField(sizes, product).RequiredChoice?
    ensures FirstInStock(sizes, product).Some? ==>
      sizes[FirstInStock(sizes, product).value].id == AddToCartSizeField(sizes, product).initial
  {
    FirstInStockIsHead(sizes, product);
  }

  /** What AddToCartView decides before it writes anything. */
  datatype AddPlan =
    | Reject(error: CartError)
    | Merge(index: nat, quantity: nat)                       // add to the existing line at `index`
    | Create(product: nat, sizeId: nat, quantity: nat)       // a new line

  /**
   * The sequential checks of AddToCartView.post: the product by slug, the form,
   * the size, the stock of that size, then the merge bound against the
   * existing line for (cart, product, size) if there is one.
   */
  function PlanAdd(sizes: seq<ProductSize>, products: seq<Product>, lines: seq<CartItem>,
                   cart: nat, slug: string, sizeIn: Input, qtyIn: Input): (plan: AddPlan)
    requires IdsIncreasing(sizes)
    ensures FindProduct(products, slug).None? ==> plan == Reject(NotFound)
    ensures FindProduct(products, slug).Some? && !(qtyIn.Given? && qtyIn.v >= 1) ==> plan == Reject(InvalidForm)
    ensures !plan.Reject? ==> qtyIn == Given(plan.quantity) && plan.quantity >= 1
    ensures plan.Merge? ==>
      plan.index < |lines| &&
      var line := lines[plan.index];
      line.cart == cart &&
      line.product == products[FindProduct(products, slug).value].id &&
      line.quantity + plan.quantity <= StockOf(sizes, line.sizeId)
    ensures plan.Create? ==>
      plan.product == products[FindProduct(products, slug).value].id &&
      SizeOfProduct(sizes, plan.sizeId, plan.product) &&
      FindLine(lines, cart, plan.product, plan.sizeId).None? &&
      plan.quantity <= StockOf(sizes, plan.sizeId)
    ensures plan.Reject? && plan.error.OnlyAvailable? ==>
      qtyIn.Given? && plan.error.available < qtyIn.v
    ensures plan.Reject? && plan.error.CannotAdd? ==>
      qtyIn == Given(plan.error.requested) &&
      exists i :: 0 <= i < |lines| && lines[i].cart == cart &&
        plan.error.more == StockOf(sizes, lines[i].sizeId) - lines[i].quantity &&
        lines[i].quantity + plan.error.requested > StockOf(sizes, lines[i].sizeId)
  {
    match FindProduct(products, slug)
    case None => Reject(NotFound)
    case Some(pi) =>
      var product := products[pi].id;
      match CleanAddToCart(AddToCartSizeField(sizes, product), sizeIn, qtyIn)
      case None => Reject(InvalidForm)
      case Some(data) =>
        match ResolveSize(sizes, product, data.size)
        case Err(e) => Reject(e)
        case Ok(k) =>
          FindSizeAt(sizes, k);
          var ps := sizes[k];
          var q := data.quantity;
          if ps.stock < q then Reject(OnlyAvailable(ps.stock))
          else match FindLine(lines, cart, product, ps.id)
            case Some(e) =>
              if lines[e].quantity + q > ps.stock then Reject(CannotAdd(q, ps.stock - lines[e].quantity))
              else Merge(e, q)
            case None => Create(product, ps.id, q)
  }

  /**
   * A successful add always used the size id the request posted: when some size
   * is in stock the form demands a choice, and when none is, the view's own
   * fallback to the first in-stock size finds nothing.
   */
  lemma AddUsesPostedSize(sizes: seq<ProductSize>, products: seq<Product>, lines: seq<CartItem>,
                          cart: nat, slug: string, sizeIn: Input, qtyIn: Input)
    requires IdsIncreasing(sizes)
    ensures var plan := PlanAdd(sizes, products, lines, cart, slug, sizeIn, qtyIn);
      !plan.Reject? ==>
        sizeIn.Given? &&
        (plan.Create? ==> plan.sizeId == sizeIn.v) &&
        (plan.Merge? ==> lines[plan.index].sizeId == sizeIn.v)
  {
    match FindProduct(products, slug)
    case None =>
    case Some(pi) =>
      var product := products[pi].id;
      FirstInStockIsFormDefault(sizes, product);
  }

  /**
   * A product none of whose sizes is in stock: the size field is an optional
   * integer, so a malformed size is invalid form data; no size (or 0) reaches
   * the fallback, which finds nothing; a non-zero id must be a row of the
   * product (else 404), and that row's empty stock refuses any quantity.
   */
  lemma AddWhenNothingInStock(sizes: seq<ProductSize>, products: seq<Product>, lines: seq<CartItem>,
                              cart: nat, slug: string, pi: nat, sizeIn: Input, q: int)
    requires IdsIncreasing(sizes)
    requires FindProduct(products, slug) == Some(pi)
    requires forall j :: 0 <= j < |sizes| && sizes[j].product == products[pi].id ==> sizes[j].stock == 0
    requires q >= 1
    ensures PlanAdd(sizes, products, lines, cart, slug, sizeIn, Given(q)) ==
      match sizeIn
      case Malformed => Reject(InvalidForm)
      case Missing => Reject(NoSizesAvailable)
      case Given(v) =>
        if v == 0 then Reject(NoSizesAvailable)
        else if exists j :: 0 <= j < |sizes| && sizes[j].id == v && sizes[j].product == products[pi].id
        then Reject(OnlyAvailable(0))
        else Reject(NotFound)
  {
    var product := products[pi].id;
    var f := AddToCartSizeField(sizes, product);
    assert f.OptionalInteger?;
    if sizeIn.Given? && sizeIn.v != 0 {
      var r := FindProductSize(sizes, sizeIn.v, product);
      if r.Some? {
        FindSizeAt(sizes, r.value);
      }
    }
  }

  /**
   * A product with some size in stock: the form only accepts one of the
   * in-stock sizes of the product, so any other size, or none, is invalid
   * form data.
   */
  lemma AddWithoutOfferedSize(sizes: seq<ProductSize>, products: seq<Product>, lines: seq<CartItem>,
                              cart: nat, slug: string, pi: nat, k: nat, sizeIn: Input, qtyIn: Input)
    requires IdsIncreasing(sizes)
    requires FindProduct(products, slug) == Some(pi)
    requires k < |sizes| && sizes[k].product == products[pi].id && sizes[k].stock > 0
    requires !(sizeIn.Given? && IsInStockSize(sizes, products[pi].id, sizeIn.v))
    ensures PlanAdd(sizes, products, lines, cart, slug, sizeIn, qtyIn) == Reject(InvalidForm)
  {
    var f := AddToCartSizeField(sizes, products[pi].id);
    assert sizes[k] in sizes;
    assert f.RequiredChoice?;
  }

  /**
   * Posting an in-stock size `k` of the product with quantity `q`: more than
   * its stock is refused with that stock reported; otherwise, when the cart
   * has no line for (product, size), one line with quantity `q` is created.
   */
  lemma AddOfferedSize(sizes: seq<ProductSize>, products: seq<Product>, lines: seq<CartItem>,
                       cart: nat, slug: string, pi: nat, k: nat, q: int)
    requires IdsIncreasing(sizes)
    requires FindProduct(products, slug) == Some(pi)
    requires k < |sizes| && sizes[k].product == products[pi].id && sizes[k].stock > 0
    requires q >= 1
    ensures q > sizes[k].stock ==>
      PlanAdd(sizes, products, lines, cart, slug, Given(sizes[k].id), Given(q)) == Reject(OnlyAvailable(sizes[k].stock))
    ensures q <= sizes[k].stock && (forall i :: 0 <= i < |lines| ==> KeyOf(lines[i]) != Line(cart, products[pi].id, sizes[k].id)) ==>
      PlanAdd(sizes, products, lines, cart, slug, Given(sizes[k].id), Given(q)) == Create(products[pi].id, sizes[k].id, q)
  {
    OfferedSizeResolves(sizes, products, pi, k, q);
  }

  /**
   * Posting an in-stock size `k` of the product with quantity `q` within its
   * stock, when the cart's line for (product, size) is `e`: the quantity is
   * merged onto that line when the sum stays within stock, and otherwise the
   * add is refused with the stock less the line's quantity reported.
   */
  lemma AddOntoExistingLine(sizes: seq<ProductSize>, products: seq<Product>, lines: seq<CartItem>,
                            cart: nat, slug: string, pi: nat, k: nat, q: int, e: nat)
    requires IdsIncreasing(sizes)
    requires Distinct(lines)
    requires FindProduct(products, slug) == Some(pi)
    requires k < |sizes| && sizes[k].product == products[pi].id
    requires 1 <= q <= sizes[k].stock
    requires e < |lines| && KeyOf(lines[e]) == Line(cart, products[pi].id, sizes[k].id)
    ensures PlanAdd(sizes, products, lines, cart, slug, Given(sizes[k].id), Given(q)) ==
      if lines[e].quantity + q <= sizes[k].stock then Merge(e, q)
      else Reject(CannotAdd(q, sizes[k].stock - lines[e].quantity))
  {
    OfferedSizeResolves(sizes, products, pi, k, q);
    var found := FindLine(lines, cart, products[pi].id, sizes[k].id);
    assert found.Some?;
    assert found.value == e;
  }

  /** The form accepts an in-stock size of the product and the view resolves it to that very row. */
  lemma OfferedSizeResolves(sizes: seq<ProductSize>, products: seq<Product>, pi: nat, k: nat, q: int)
    requires IdsIncreasing(sizes)
    requires pi < |products|
    requires k < |sizes| && sizes[k].product == products[pi].id && sizes[k].stock > 0
    requires q >= 1
    ensures CleanAddToCart(AddToCartSizeField(sizes, products[pi].id), Given(sizes[k].id), Given(q)) ==
      Some(AddToCartData(ChosenSize(sizes[k].id), q))
    ensures ResolveSize(sizes, products[pi].id, ChosenSize(sizes[k].id)) == Ok(k)
  {
    var f := AddToCartSizeField(sizes, products[pi].id);
    assert sizes[k] in sizes;
    assert IsInStockSize(sizes, products[pi].id, sizes[k].id);
    assert IsChoice(f, sizes[k].id);
    var r := FindProductSize(sizes, sizes[k].id, products[pi].id);
    assert r.Some?;
  }

  /**
   * The numbers in the two stock refusals are about the posted size:
   * OnlyAvailable reports that size's stock, and CannotAdd reports that stock
   * less the quantity of the cart's line for (product, size).
   */
  lemma AddRefusalsNameThePostedSize(sizes: seq<ProductSize>, products: seq<Product>, lines: seq<CartItem>,
                                     cart: nat, slug: string, sizeIn: Input, qtyIn: Input)
    requires IdsIncreasing(sizes)
    ensures var plan := PlanAdd(sizes, products, lines, cart, slug, sizeIn, qtyIn);
      plan.Reject? && plan.error.OnlyAvailable? ==>
        FindProduct(products, slug).Some? && sizeIn.Given? && sizeIn.v >= 0 && qtyIn.Given? &&
        SizeOfProduct(sizes, sizeIn.v, products[FindProduct(products, slug).value].id) &&
        plan.error.available == StockOf(sizes, sizeIn.v) < qtyIn.v
    ensures var plan := PlanAdd(sizes, products, lines, cart, slug, sizeIn, qtyIn);
      plan.Reject? && plan.error.CannotAdd? ==>
        FindProduct(products, slug).Some? && sizeIn.Given? && sizeIn.v >= 0 &&
        qtyIn == Given(plan.error.requested) &&
        var e := FindLine(lines, cart, products[FindProduct(products, slug).value].id, sizeIn.v);
        e.Some? &&
        plan.error.more == StockOf(sizes, sizeIn.v) - lines[e.value].quantity &&
        lines[e.value].quantity + plan.error.requested > StockOf(sizes, sizeIn.v)
  {
    match FindProduct(products, slug)
    case None =>
    case Some(pi) =>
      var product := products[pi].id;
      FirstInStockIsFormDefault(sizes, product);
      var f := AddToCartSizeField(sizes, product);
      match CleanAddToCart(f, sizeIn, qtyIn)
      case None =>
      case Some(data) =>
        match ResolveSize(sizes, product, data.size)
        case Err(_) =>
        case Ok(k) =>
          FindSizeAt(sizes, k);
  }

  /** Every line belongs to a cart that has been created and names a size row of its own product. */
  ghost predicate LinesPlaced(sizes: seq<ProductSize>, lines: seq<CartItem>, nextCartId: nat)
  {
    forall i :: 0 <= i < |lines| ==>
      lines[i].cart < nextCartId && SizeOfProduct(sizes, lines[i].sizeId, lines[i].product)
  }

  /**
   * The store the cart views work on: the ProductSize and Product rows they
   * read, the session-to-cart table, and the CartItem table they write.
   */
  class CartStore {
    var sizes: seq<ProductSize>
    var products: seq<Product>
    var sessions: map<string, nat>      // Cart.session_key -> Cart.id
    var nextCartId: nat
    var lines: seq<CartItem>            // the CartItem table
    var nextItemId: nat

    ghost predicate Valid()
      reads this
    {
      IdsIncreasing(sizes) &&
      LinesValid(lines, nextItemId) &&
      (forall key :: key in sessions ==> sessions[key] < nextCartId) &&
      LinesPlaced(sizes, lines, nextCartId)
    }

    constructor (sizes: seq<ProductSize>, products: seq<Product>)
      requires IdsIncreasing(sizes)
      ensures Valid()
      ensures this.sizes == sizes && this.products == products
      ensures sessions == map[] && lines == []
      ensures nextCartId == 0 && nextItemId == 0
    {
      this.sizes := sizes;
      this.products := products;
      sessions := map[];
      nextCartId := 0;
      lines := [];
      nextItemId := 0;
    }

    /**
     * CartMixin.get_cart: a cart the request already carries is returned as it
     * is; otherwise the session key (a new one from the session layer when the
     * session has none) is looked up and a cart is created for it only when
     * none exists, so a second call with the same key returns the same cart.
     */
    method GetCart(attached: Option<nat>, sessionKey: string, freshKey: string) returns (key: string, cart: nat)
      requires Valid()
      requires attached.Some? ==> attached.value < nextCartId
      modifies this
      ensures Valid()
      ensures sizes == old(sizes) && products == old(products)
      ensures lines == old(lines) && nextItemId == old(nextItemId)
      ensures cart < nextCartId
      ensures attached.Some? ==>
        key == sessionKey && cart == attached.value &&
        sessions == old(sessions) && nextCartId == old(nextCartId)
      ensures attached.None? ==>
        key == (if sessionKey == "" then freshKey else sessionKey) &&
        key in sessions && sessions[key] == cart
      ensures attached.None? && key in old(sessions) ==>
        cart == old(sessions)[key] && sessions == old(sessions) && nextCartId == old(nextCartId)
      ensures attached.None? && key !in old(sessions) ==>
        cart == old(nextCartId) && nextCartId == old(nextCartId) + 1 &&
        sessions == old(sessions)[key := cart] && CartTotal(lines, cart) == 0
    {
      if attached.Some? {
        return sessionKey, attached.value;
      }
      key := if sessionKey == "" then freshKey else sessionKey;
      if key in sessions {
        cart := sessions[key];
      } else {
        cart := nextCartId;
        sessions := sessions[key := cart];
        nextCartId := nextCartId + 1;
        TotalOfOthers(lines, WholeCart(cart));
      }
    }

    /**
     * AddToCartView.post: either reports the first failed check and changes
     * nothing, or adds `quantity` to the one line for (cart, product, size),
     * creating that line when the cart has none.
     */
    method AddToCart(cart: nat, slug: string, sizeIn: Input, qtyIn: Input) returns (r: Outcome)
      requires Valid()
      requires cart < nextCartId
      modifies this
      ensures Valid()
      ensures sizes == old(sizes) && products == old(products)
      ensures sessions == old(sessions) && nextCartId == old(nextCartId)
      ensures Committed(old(lines), old(nextItemId), lines, nextItemId, cart,
                        PlanAdd(old(sizes), old(products), old(lines), cart, slug, sizeIn, qtyIn), r)
      ensures r.Added? ==> r.totalItems == old(CartTotal(lines, cart)) + qtyIn.v
    {
      r := Commit(cart, PlanAdd(sizes, products, lines, cart, slug, sizeIn, qtyIn));
    }

    /**
     * What carrying out a plan does to the CartItem table: nothing for a
     * rejection; otherwise the one line for the plan's (cart, product, size)
     * grows by the plan's quantity, every sum that covers it grows by as much,
     * and every other sum stays as it was.
     */
    ghost predicate Committed(lines0: seq<CartItem>, next0: nat, lines1: seq<CartItem>, next1: nat,
                              cart: nat, plan: AddPlan, r: Outcome)
    {
      match plan
      case Reject(e) =>
        r == Failed(e) && lines1 == lines0 && next1 == next0
      case Merge(i, q) =>
        i < |lines0| &&
        var line := lines0[i];
        lines1 == lines0[i := line.(quantity := line.quantity + q)] && next1 == next0 &&
        r == Added(line.id, CartTotal(lines1, cart)) &&
        (forall sc :: Total(lines1, sc) == Total(lines0, sc) + (if InScope(line, sc) then q else 0))
      case Create(p, s, q) =>
        var line := CartItem(next0, cart, p, s, q);
        lines1 == lines0 + [line] && next1 == next0 + 1 &&
        r == Added(line.id, CartTotal(lines1, cart)) &&
        Total(lines0, KeyOf(line)) == 0 &&
        (forall sc :: Total(lines1, sc) == Total(lines0, sc) + (if InScope(line, sc) then q else 0))
    }

    /** The writes of AddToCartView.post once its checks have passed. */
    method Commit(cart: nat, plan: AddPlan) returns (r: Outcome)
      requires Valid()
      requires cart < nextCartId
      requires plan.Merge? ==> plan.index < |lines| && lines[plan.index].cart == cart && plan.quantity >= 1
      requires plan.Create? ==>
        plan.quantity >= 1 && SizeOfProduct(sizes, plan.sizeId, plan.product) &&
        FindLine(lines, cart, plan.product, plan.sizeId).None?
      modifies this`lines, this`nextItemId
      ensures Valid()
      ensures Committed(old(lines), old(nextItemId), lines, nextItemId, cart, plan, r)
      ensures r.Added? ==> r.totalItems == old(CartTotal(lines, cart)) + plan.quantity
    {
      match plan {
        case Reject(e) =>
          r := Failed(e);
        case Merge(i, q) =>
          var line := lines[i];
          IncreaseLine(i, q);
          r := Added(line.id, CartTotal(lines, cart));
        case Create(p, s, q) =>
          var id := nextItemId;
          AppendLine(cart, p, s, q);
          r := Added(id, CartTotal(lines, cart));
      }
    }

    /** `existing_item.quantity += quantity; existing_item.save()`. */
    method IncreaseLine(i: nat, q: nat)
      requires Valid()
      requires i < |lines| && q >= 1
      modifies this`lines
      ensures Valid()
      ensures lines == old(lines)[i := old(lines)[i].(quantity := old(lines)[i].quantity + q)]
      ensures forall sc :: Total(lines, sc) == old(Total(lines, sc)) + (if InScope(old(lines)[i], sc) then q else 0)
    {
      var line := lines[i];
      var merged := line.(quantity := line.quantity + q);
      forall sc ensures Total(lines[i := merged], sc) == Total(lines, sc) + (if InScope(line, sc) then q else 0) {
        TotalSet(lines, i, merged, sc);
      }
      SetQuantityKeepsValid(lines, nextItemId, i, line.quantity + q);
      lines := lines[i := merged];
      assert forall k :: 0 <= k < |lines| ==>
        lines[k].sizeId == old(lines)[k].sizeId && lines[k].product == old(lines)[k].product && lines[k].cart == old(lines)[k].cart;
    }

    /** `CartItem.objects.create(cart=..., product=..., product_size=..., quantity=...)`. */
    method AppendLine(cart: nat, product: nat, sizeId: nat, q: nat)
      requires Valid()
      requires cart < nextCartId && q >= 1
      requires SizeOfProduct(sizes, sizeId, product)
      requires FindLine(lines, cart, product, sizeId).None?
      modifies this`lines, this`nextItemId
      ensures Valid()
      ensures lines == old(lines) + [CartItem(old(nextItemId), cart, product, sizeId, q)]
      ensures nextItemId == old(nextItemId) + 1
      ensures old(Total(lines, Line(cart, product, sizeId))) == 0
      ensures forall sc ::
        Total(lines, sc) == old(Total(lines, sc)) + (if InScope(CartItem(old(nextItemId), cart, product, sizeId, q), sc) then q else 0)
    {
      var line := CartItem(nextItemId, cart, product, sizeId, q);
      forall sc ensures Total(lines + [line], sc) == Total(lines, sc) + (if InScope(line, sc) then q else 0) {
        TotalAppend(lines, line, sc);
      }
      TotalOfOthers(lines, KeyOf(line));
      AppendKeepsValid(lines, nextItemId, line);
      lines := lines + [line];
      nextItemId := nextItemId + 1;
    }

    /**
     * UpdateCartItemView.post: the item must be a line of this cart (else
     * 404); a missing quantity means 1; a non-integer or negative one is
     * rejected; 0 deletes the line; more than the size's stock is rejected and
     * the line kept; anything else becomes the line's quantity.
     */
    method UpdateCartItem(cart: nat, itemId: nat, qtyIn: Input) returns (r: Outcome)
      requires Valid()
      modifies this`lines
      ensures Valid()
      ensures Updated(old(lines), lines, sizes, cart, itemId, qtyIn, r)
    {
      var found := FindItem(lines, cart, itemId);
      if found.None? {
        return Failed(NotFound);
      }
      var i := found.value;
      var line := lines[i];
      var parsed := ParseUpdateQuantity(qtyIn);
      if parsed.Err? {
        return Failed(parsed.error);
      }
      var q := parsed.value;
      if q == 0 {
        DeleteLine(i);
        r := Done;
      } else {
        var stock := StockOf(sizes, line.sizeId);
        if q > stock {
          return Failed(OnlyAvailable(stock));
        }
        SetLine(i, q);
        r := Done;
      }
    }

    /** `cart_item.delete()`. */
    method DeleteLine(i: nat)
      requires Valid()
      requires i < |lines|
      modifies this`lines
      ensures Valid()
      ensures lines == RemoveAt(old(lines), i)
      ensures forall sc :: Total(lines, sc) + Weight(old(lines)[i], sc) == old(Total(lines, sc))
    {
      forall sc ensures Total(RemoveAt(lines, i), sc) + Weight(lines[i], sc) == Total(lines, sc) {
        TotalRemoveAt(lines, i, sc);
      }
      RemoveAtKeepsValid(lines, nextItemId, i);
      lines := RemoveAt(lines, i);
    }

    /** `cart_item.quantity = quantity; cart_item.save()`. */
    method SetLine(i: nat, q: nat)
      requires Valid()
      requires i < |lines| && q >= 1
      modifies this`lines
      ensures Valid()
      ensures lines == old(lines)[i := old(lines)[i].(quantity := q)]
      ensures forall sc :: Total(lines, sc) + Weight(old(lines)[i], sc) ==
                           old(Total(lines, sc)) + (if InScope(old(lines)[i], sc) then q else 0)
      ensures Total(lines, KeyOf(old(lines)[i])) == q
    {
      var line := lines[i];
      var updated := line.(quantity := q);
      forall sc ensures Total(lines[i := updated], sc) + Weight(line, sc) == Total(lines, sc) + Weight(updated, sc) {
        TotalSet(lines, i, updated, sc);
      }
      SetQuantityKeepsValid(lines, nextItemId, i, q);
      lines := lines[i := updated];
      TotalOfKey(lines, i);
      assert forall k :: 0 <= k < |lines| ==>
        lines[k].sizeId == old(lines)[k].sizeId && lines[k].product == old(lines)[k].product && lines[k].cart == old(lines)[k].cart;
    }

    /**
     * RemoveCartItemView.post: deletes the line with that id if it belongs to
     * this cart; otherwise "Item not found" and nothing changes.
     */
    method RemoveCartItem(cart: nat, itemId: nat) returns (r: Outcome)
      requires Valid()
      modifies this`lines
      ensures Valid()
      ensures old(FindItem(lines, cart, itemId)).None? ==> r == Failed(ItemNotFound) && lines == old(lines)
      ensures old(FindItem(lines, cart, itemId)).Some? ==>
        var i := old(FindItem(lines, cart, itemId)).value;
        r == Done && lines == RemoveAt(old(lines), i) &&
        (forall k :: 0 <= k < |lines| ==> lines[k].id != itemId) &&
        (forall sc :: Total(lines, sc) + Weight(old(lines)[i], sc) == old(Total(lines, sc)))
    {
      var found := FindItem(lines, cart, itemId);
      if found.None? {
        return Failed(ItemNotFound);
      }
      DeleteLine(found.value);
      r := Done;
    }

    /**
     * ClearCartView.post, through `Cart.clear()`: every line of this cart is
     * deleted and the lines of other carts are kept.
     */
    method ClearCart(cart: nat) returns (r: Outcome)
      requires Valid()
      modifies this`lines
      ensures Valid()
      ensures r == Done
      ensures lines == WithoutCart(old(lines), cart)
      ensures CartTotal(lines, cart) == 0
      ensures forall sc: Scope :: sc.cart != cart ==> Total(lines, sc) == old(Total(lines, sc))
    {
      forall sc ensures Total(WithoutCart(lines, cart), sc) == if sc.cart == cart then 0 else Total(lines, sc) {
        TotalWithoutCart(lines, cart, sc);
      }
      WithoutCartKeepsValid(lines, nextItemId, cart);
      lines := WithoutCart(lines, cart);
      r := Done;
    }
  }

  /** `int(request.POST.get("quantity", 1))` followed by the `quantity < 0` check. */
  function ParseUpdateQuantity(qtyIn: Input): Result<nat, CartError>
  {
    match qtyIn
    case Missing => Ok(1)
    case Malformed => Err(InvalidQuantityFormat)
    case Given(v) => if v < 0 then Err(InvalidQuantity) else Ok(v)
  }

  /**
   * What UpdateCartItemView does to the CartItem table: nothing when it
   * fails; when the new quantity is 0 the line is gone and every sum that
   * covered it drops by its old quantity; otherwise the line's quantity is
   * exactly the new one, within its size's stock.
   */
  ghost predicate Updated(lines0: seq<CartItem>, lines1: seq<CartItem>, sizes: seq<ProductSize>,
                          cart: nat, itemId: nat, qtyIn: Input, r: Outcome)
  {
    match FindItem(lines0, cart, itemId)
    case None => r == Failed(NotFound) && lines1 == lines0
    case Some(i) =>
      var line := lines0[i];
      match ParseUpdateQuantity(qtyIn)
      case Err(e) => r == Failed(e) && lines1 == lines0
      case Ok(q) =>
        if q == 0 then
          r == Done && lines1 == RemoveAt(lines0, i) &&
          (forall k :: 0 <= k < |lines1| ==> lines1[k].id != itemId) &&
          (forall sc :: Total(lines1, sc) + Weight(line, sc) == Total(lines0, sc))
        else if q > StockOf(sizes, line.sizeId) then
          r == Failed(OnlyAvailable(StockOf(sizes, line.sizeId))) && lines1 == lines0
        else
          r == Done && lines1 == lines0[i := line.(quantity := q)] &&
          // The view checks the stock itself and never builds the update form;
          // this conjunct records that the form would accept the same q.
          UpdateFormAccepts(q, Some(StockOf(sizes, line.sizeId))) &&
          Total(lines1, KeyOf(line)) == q &&
          (forall sc :: Total(lines1, sc) + Weight(line, sc) == Total(lines0, sc) + (if InScope(line, sc) then q else 0))
  }
}

/**
 * Client code of the cart engine: the methods below call the handlers on a
 * fresh store, and what the handlers report is fixed by their contracts.
 */
module CartScenarios {
  import opened Wrappers
  import opened Store
  import opened CartForms
  import opened CartLines
  import opened CartViews

  /** One product, "tee", with one size, "M", holding 5 units. */
  function TeeSizes(): seq<ProductSize> { [ProductSize(1, 7, "M", 5)] }
  function TeeProducts(): seq<Product> { [Product(7, "Tee", "tee", 1, "red", 1500, "", 0)] }

  /** The form offers "M" and requires it; the request posts it with quantity 3. */
  lemma TeeFormAcceptsM()
    ensures CleanAddToCart(AddToCartSizeField(TeeSizes(), 7), Given(1), Given(3)) == Some(AddToCartData(ChosenSize(1), 3))
  {
    var sizes := TeeSizes();
    assert InStockSizes(sizes, 7) == [sizes[0]] by {
      assert InStockSizes(sizes[1..], 7) == [];
    }
    var field := AddToCartSizeField(sizes, 7);
    assert field.choices == [(1, "M")];
    assert IsChoice(field, 1) by {
      assert field.choices[0].0 == 1;
    }
  }

  lemma {:induction false} TeePlans(cart: nat, lines: seq<CartItem>)
    ensures lines == [] ==>
      PlanAdd(TeeSizes(), TeeProducts(), lines, cart, "tee", Given(1), Given(3)) == Create(7, 1, 3)
    ensures lines == [CartItem(0, cart, 7, 1, 3)] ==>
      PlanAdd(TeeSizes(), TeeProducts(), lines, cart, "tee", Given(1), Given(3)) == Reject(CannotAdd(3, 2))
  {
    var sizes, products := TeeSizes(), TeeProducts();
    assert FindProduct(products, "tee") == Some(0);
    TeeFormAcceptsM();
    assert ResolveSize(sizes, 7, ChosenSize(1)) == Ok(0) by {
      assert FindProductSize(sizes, 1, 7) == Some(0);
    }
    if lines == [CartItem(0, cart, 7, 1, 3)] {
      assert FindLine(lines, cart, 7, 1) == Some(0);
    }
  }

  /** A fresh store whose new cart has received 3 of "M" in one request. */
  method TeeCartWithThree() returns (store: CartStore, cart: nat, added: Outcome)
    ensures fresh(store) && store.Valid()
    ensures store.sizes == TeeSizes() && store.products == TeeProducts()
    ensures cart < store.nextCartId
    ensures store.lines == [CartItem(0, cart, 7, 1, 3)]
    ensures added == Added(0, 3)
  {
    store := new CartStore(TeeSizes(), TeeProducts());
    var key;
    key, cart := store.GetCart(None, "", "session-1");
    assert store.lines == [] && store.nextItemId == 0;
    TeePlans(cart, []);
    TeeLineTotal(cart);
    added := store.AddToCart(cart, "tee", Given(1), Given(3));
    assert store.lines == [CartItem(0, cart, 7, 1, 3)];
  }

  lemma TeeLineTotal(cart: nat)
    ensures CartTotal([CartItem(0, cart, 7, 1, 3)], cart) == 3
  {
    var l := [CartItem(0, cart, 7, 1, 3)];
    assert l[1..] == [];
    assert Total(l[1..], WholeCart(cart)) == 0;
    assert Weight(l[0], WholeCart(cart)) == 3;
  }

  /**
   * A size with stock 5: adding 3 succeeds and the cart holds 3; adding 3
   * more would make 6, so it is refused with 2 reported as still available
   * and the cart still holds 3.
   */
  method MergeOverStockScenario() returns (first: Outcome, second: Outcome, total: nat)
    ensures first == Added(0, 3)
    ensures second == Failed(CannotAdd(3, 2))
    ensures total == 3
  {
    var store, cart;
    store, cart, first := TeeCartWithThree();
    TeePlans(cart, store.lines);
    second := store.AddToCart(cart, "tee", Given(1), Given(3));
    assert store.lines == [CartItem(0, cart, 7, 1, 3)];
    TeeLineTotal(cart);
    total := CartTotal(store.lines, cart);
  }

  /** Setting a line's quantity to 0 deletes it rather than keeping a line of 0. */
  method UpdateToZeroScenario() returns (r: Outcome, lineCount: nat, total: nat)
    ensures r == Done
    ensures lineCount == 0 && total == 0
  {
    var store, cart, added := TeeCartWithThree();
    assert FindItem(store.lines, cart, 0) == Some(0);
    r := store.UpdateCartItem(cart, 0, Given(0));
    lineCount := |store.lines|;
    total := CartTotal(store.lines, cart);
  }

  /** One product with two sizes: "S" out of stock, "M" with 2 units. */
  function TwoSizes(): seq<ProductSize> { [ProductSize(1, 7, "S", 0), ProductSize(2, 7, "M", 2)] }

  /** Taken on its own, the view's fallback for a request without a size picks "M". */
  lemma FallbackPicksStockedSize()
    ensures ResolveSize(TwoSizes(), 7, NoSize) == Ok(1)
  {
    assert FirstInStock(TwoSizes(), 7) == Some(1);
  }

  /**
   * A request that posts no size for that product never reaches the fallback:
   * "M" is in stock, so the form requires a size and the add is refused.
   */
  lemma {:induction false} NoSizePostedIsInvalid(lines: seq<CartItem>, cart: nat)
    ensures PlanAdd(TwoSizes(), TeeProducts(), lines, cart, "tee", Missing, Given(1)) == Reject(InvalidForm)
  {
    assert FindProduct(TeeProducts(), "tee") == Some(0);
    FirstInStockIsFormDefault(TwoSizes(), 7);
    assert FirstInStock(TwoSizes(), 7) == Some(1);
  }

  /** Two requests of one session get the same cart, and only the first creates it. */
  method SameSessionScenario() returns (first: nat, second: nat, carts: nat)
    ensures first == second
    ensures carts == 1
  {
    var store := new CartStore(TeeSizes(), TeeProducts());
    var key1, key2;
    key1, first := store.GetCart(None, "session-1", "unused");
    key2, second := store.GetCart(None, "session-1", "unused");
    carts := store.nextCartId;
  }
}
