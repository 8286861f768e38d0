# project_dacp storefront core, modelled in Dafny

This project models the parts of the `project_dacp` Django clothing shop that
carry real logic:

- **The session cart** (`dacp/cart/views.py`, validated by `dacp/cart/forms.py`).
  A `CartViews.CartStore` object holds the rows these views read and write:
  - the ProductSize table, kept in primary-key order
  - the Product table
  - the session-key-to-cart table
  - the CartItem table (a sequence of lines)

  Its methods are `get_cart`, add-to-cart, update-quantity, remove and clear.
  `get_cart` returns the session's cart, creating one when the session has
  none. Each of the other four either reports the error the view returns and
  changes nothing, or commits exactly one change to the CartItem table. The class invariant keeps
  every line's quantity at least 1, at most one line per (cart, product, size),
  distinct item ids, and every line pointing at a size of its own product. The
  add handler is specified by the function `PlanAdd`, which makes the view's
  sequence of checks, followed by the `Commit` of the chosen write.
  `CartForms` holds `AddToCartForm`'s size field (a required choice among the
  in-stock sizes, or an optional integer) and `UpdateCartItemForm`'s stock bound.
- **Stock given back on cancellation** (`dacp/orders/signals.py`).
  - `OrderSignals.Transition` is the pure guard-and-credit function.
  - `RestoreStockOnCancel` is the loop over the order's items, proved equal to it.
  - Lemmas state idempotence, monotonicity, the exact per-row and total credit,
    and that unreferenced rows are untouched.
- **The catalog pipeline** (`CatalogView.get_context_data` in `dacp/main/views.py`).
  - Products start newest first. They are narrowed by category and by the `q`
    search, then ordered as `sort` asks.
  - Each non-empty `FILTER_MAPPING` parameter then narrows them further, and
    `filter_params` records every parameter.
  - The method is proved to return exactly the products `CatalogView.Admits`
    accepts, with the multiplicity they have in the table, in the requested
    order.

Prices are integer cents; case-insensitive matching folds ASCII letters.

AddToCartView's fallback to the first in-stock size (`dacp/cart/views.py:58-64`)
never produces a size. When some size of the product is in stock,
`AddToCartForm` makes `size_id` a required choice among the in-stock sizes
(`dacp/cart/forms.py:16-27`). A request without a size is then invalid form
data, and a valid one cleans to a non-empty string, so `if size_id:`
(`dacp/cart/views.py:56`) always holds. When no size is in stock, the fallback
finds nothing. `CartViews.AddUsesPostedSize` proves that every successful add
used the size id the request posted. `CartScenarios.NoSizePostedIsInvalid`
takes a product with sizes of stock 0 and 2 and no size posted: the add is
refused as invalid form data rather than filled from the stock-2 size.

## Model

| member | source | states |
|---|---|---|
| Store.FindProduct | dacp/cart/views.py:42 | the index found holds a product with that slug and no earlier one has it; none means no product has it (the 404) |
| Store.FindCategory | dacp/main/views.py:76 | the category found has the slug; none means no category has it (the 404) |
| CartForms.InStockSizes | dacp/cart/forms.py:14 | exactly the product's sizes with stock > 0, kept in primary-key order |
| CartForms.SizeChoices | dacp/cart/forms.py:17-24 | one (id, size name) choice per in-stock size, in the same order |
| CartForms.AddToCartSizeField | dacp/cart/forms.py:10-27 | the size stays an optional integer iff no size of the product has stock; otherwise the choices are exactly the in-stock sizes and the initial one is the first of them |
| CartForms.CleanAddToCart | dacp/cart/forms.py:6-27 | the form is valid iff the quantity is an integer ≥ 1 and the size is an offered choice (choice field) or an integer or absent (integer field); cleaned data carries the posted values |
| CartForms.UpdateFormAccepts | dacp/cart/forms.py:35-41 | with a product size, a quantity is accepted iff it is at most that size's stock; without one, the stock bound imposes nothing |
| CartLines.FindLine | dacp/cart/views.py:75-78 | the line found has key (cart, product, size); none means no line has that key |
| CartLines.FindItem | dacp/cart/views.py:117 | the line found has that id and belongs to the cart; none means no line of the cart has that id |
| CartLines.RemoveAt | dacp/cart/views.py:128 | deleting a line leaves the other lines, in their order, one shorter |
| CartLines.WithoutCart | dacp/cart/views.py:183 | the lines kept are exactly those of other carts |
| CartLines.CartTotal | dacp/cart/views.py:106 | no contract of its own: the assumed `Cart.total_items`, the sum of the cart's line quantities; the Total lemmas and the handlers' contracts state how each change moves it |
| CartLines.TotalOfKey | dacp/cart/views.py:75-96 | with one line per key, the quantity held for a line's (cart, product, size) is that line's quantity |
| CartLines.TotalWithoutCart | dacp/cart/views.py:183 | after clearing, every sum over the cleared cart is 0 and every other sum is unchanged |
| CartLines.TotalRemoveAt | dacp/cart/views.py:128 | deleting a line lowers every sum covering it by its quantity |
| CartLines.TotalSet | dacp/cart/views.py:135-136 | replacing a line changes each sum by the difference of the two lines' weights |
| CartLines.TotalAppend | dacp/cart/views.py:94-96 | a new line adds its weight to every sum |
| CartLines.SetQuantityKeepsValid | dacp/cart/views.py:89-90 | a new quantity ≥ 1 keeps ids and keys distinct and quantities positive |
| CartLines.AppendKeepsValid | dacp/cart/views.py:94-96 | a new line with a fresh id and an unused key keeps the invariant |
| CartLines.RemoveAtKeepsValid | dacp/cart/views.py:156 | deleting a line keeps the invariant |
| CartLines.WithoutCartKeepsValid | dacp/cart/views.py:183 | clearing a cart keeps the invariant |
| CartViews.FindProductSize | dacp/cart/views.py:57 | the row found has the posted id and belongs to the product; none means no such row (the 404) |
| CartViews.FirstInStock | dacp/cart/views.py:59 | the row found is the product's first size with stock > 0 in primary-key order; none means the product has no such size |
| CartViews.ResolveSize | dacp/cart/views.py:54-64 | a posted size must be a row of the product, else NotFound; with none posted, the first in-stock size, else NoSizesAvailable |
| CartViews.FirstInStockHasSmallestId | dacp/cart/views.py:59 | the fallback size has the smallest id among the product's in-stock sizes |
| CartViews.FirstInStockIsHead | dacp/cart/forms.py:14 | the view's fallback exists iff the form's in-stock list is non-empty, and it is that list's head |
| CartViews.FirstInStockIsFormDefault | dacp/cart/forms.py:26 | the view's fallback exists iff the form makes the size a required choice, and it is the form's initial choice |
| CartViews.PlanAdd | dacp/cart/views.py:40-96 | unknown slug gives NotFound; a quantity that is not an integer ≥ 1 gives InvalidForm; a merge or a create stays within the size's stock; OnlyAvailable reports a stock below the request; CannotAdd reports stock minus the existing quantity for a line that would overflow; the lemmas after it say, for every request, which plan it yields |
| CartViews.AddWhenNothingInStock | dacp/cart/views.py:43-72 | for a product with no size in stock and a quantity ≥ 1: a malformed size is invalid form data; no size or 0 gives "No sizes available"; a non-zero id of a size of the product gives "Only 0 items available"; any other id gives 404 |
| CartViews.AddWithoutOfferedSize | dacp/cart/views.py:43-52 | when some size of the product is in stock, a request whose size is not one of the in-stock sizes of the product is invalid form data |
| CartViews.AddOfferedSize | dacp/cart/views.py:66-96 | posting an in-stock size of the product: a quantity above its stock is refused with exactly that stock reported; within stock and with no line for (cart, product, size), exactly one line with that quantity is created |
| CartViews.AddOntoExistingLine | dacp/cart/views.py:75-91 | posting an in-stock size within stock when the cart has the line for (cart, product, size): the quantity is merged onto that line if the sum stays within stock, else refused reporting stock minus the line's quantity |
| CartViews.OfferedSizeResolves | dacp/cart/views.py:43-57 | the form accepts an in-stock size of the product and the view resolves the posted id to that very row |
| CartViews.AddRefusalsNameThePostedSize | dacp/cart/views.py:69-88 | "Only N items available" reports the posted size's stock, which is below the request; "Can't add" reports that stock less the quantity of the cart's line for (product, posted size), which the request would overflow |
| CartViews.AddUsesPostedSize | dacp/cart/views.py:54-64 | every add that passes its checks uses the size id the request posted, so the fallback never produces a line |
| CartViews.ParseUpdateQuantity | dacp/cart/views.py:119-125 | no contract of its own: a missing quantity reads as 1, a non-integer is InvalidQuantityFormat, a negative one InvalidQuantity; UpdateCartItem's contract is stated through it |
| CartViews.CartStore.GetCart | dacp/cart/views.py:12-23 | a cart already attached to the request is returned; otherwise the session's existing cart is returned unchanged, or exactly one empty cart is created for that key; nothing else changes |
| CartViews.CartStore.AddToCart | dacp/cart/views.py:38-110 | the outcome and the new CartItem table are those of committing PlanAdd: a rejection changes nothing; a merge adds the quantity to the one existing line; a create appends one line with a fresh id; sizes, products and sessions never change; total_items grows by the quantity; which plan a request yields is stated by AddWhenNothingInStock, AddWithoutOfferedSize, AddOfferedSize, AddOntoExistingLine and AddRefusalsNameThePostedSize |
| CartViews.CartStore.Commit | dacp/cart/views.py:80-96 | carrying out a plan keeps the invariant and changes exactly the sums covering the merged or new line, by the plan's quantity |
| CartViews.CartStore.IncreaseLine | dacp/cart/views.py:89-90 | the line's quantity grows by q and every sum covering it grows by q |
| CartViews.CartStore.AppendLine | dacp/cart/views.py:94-96 | one new line with the next id; the key had no quantity before |
| CartViews.CartStore.UpdateCartItem | dacp/cart/views.py:113-148 | an item not in this cart gives NotFound; a malformed quantity gives InvalidQuantityFormat and a negative one InvalidQuantity; 0 deletes the line; above stock gives OnlyAvailable and keeps the line; otherwise the line's quantity becomes exactly the value; failures change nothing |
| CartViews.CartStore.DeleteLine | dacp/cart/views.py:128 | the line is removed and every sum covering it drops by its quantity |
| CartViews.CartStore.SetLine | dacp/cart/views.py:135-136 | the line's quantity becomes q, the sum for its (cart, product, size) becomes q, and every other sum moves by the difference |
| CartViews.CartStore.RemoveCartItem | dacp/cart/views.py:151-169 | an id not in this cart gives ItemNotFound and changes nothing; otherwise exactly that line is deleted and no line with that id remains |
| CartViews.CartStore.ClearCart | dacp/cart/views.py:180-196 | every line of the cart is deleted, its total becomes 0, and every sum over other carts is unchanged |
| CartScenarios.TeeFormAcceptsM | dacp/cart/forms.py:17-27 | the form for a product with one in-stock size accepts that size with quantity 3 |
| CartScenarios.TeePlans | dacp/cart/views.py:75-88 | adding 3 of a size of stock 5 creates a line; adding 3 more is refused with 2 more available |
| CartScenarios.MergeOverStockScenario | dacp/cart/views.py:80-91 | add 3 then 3 of a stock-5 size: the first succeeds, the second fails with "Can't add 3 … only 2 more", and the cart holds 3 |
| CartScenarios.UpdateToZeroScenario | dacp/cart/views.py:127-128 | setting a line's quantity to 0 leaves the cart with no lines |
| CartScenarios.FallbackPicksStockedSize | dacp/cart/views.py:59 | taken alone, the fallback picks the stocked size over the empty one |
| CartScenarios.NoSizePostedIsInvalid | dacp/cart/forms.py:16-27 | with a size in stock, a request without a size is refused as invalid form data |
| CartScenarios.SameSessionScenario | dacp/cart/views.py:18-20 | two requests of one session get the same cart and only one cart exists |
| OrderSignals.RestoresStock | dacp/orders/signals.py:10-21 | no contract of its own: the guard (a saved order found in the table, moving into cancelled from a status that took stock); OnlyCancellingTakenStockCredits and CancelIsIdempotent are about it |
| OrderSignals.Credit | dacp/orders/signals.py:27-28 | no contract of its own: `stock += quantity` on one row; CreditShape, CreditStock and CreditTotal state its effect |
| OrderSignals.CreditAll | dacp/orders/signals.py:24-28 | no contract of its own: every item credited in turn; CreditAllShape, CreditAllStock, CreditAllRow and CreditAllTotal state its effect |
| OrderSignals.Transition | dacp/orders/signals.py:10-28 | no contract of its own: the stock table after the hook; RestoreStockOnCancel is proved equal to it, and TransitionCredits, StockNeverDecreases, UnreferencedRowsUnchanged and TransitionTotal state its effect |
| OrderSignals.CreditShape | dacp/orders/signals.py:27-28 | one credit changes only the stock of the rows with that id, by the quantity |
| OrderSignals.CreditStock | dacp/orders/signals.py:27-28 | one credit adds its quantity to its own row's stock and to no other |
| OrderSignals.CreditAllShape | dacp/orders/signals.py:24-28 | crediting all items keeps every row's id, product and size name |
| OrderSignals.CreditAllStock | dacp/orders/signals.py:24-28 | crediting all items adds to each existing row exactly the quantities of the items that consumed it |
| OrderSignals.CreditAllRow | dacp/orders/signals.py:24-28 | row by row, each row gains the summed quantities of the items referring to it |
| OrderSignals.CreditTotal | dacp/orders/signals.py:27-28 | with unique ids, one credit of an existing row raises total stock by its quantity |
| OrderSignals.CreditAllTotal | dacp/orders/signals.py:24-28 | with unique ids and existing rows, crediting all items raises total stock by the sum of their quantities |
| OrderSignals.QuantityForUnreferenced | dacp/orders/signals.py:24-28 | a row no item refers to is owed nothing |
| OrderSignals.OnlyCancellingTakenStockCredits | dacp/orders/signals.py:10-21 | stock changes only for a saved, stored order moving into cancelled from processing, shipped or delivered |
| OrderSignals.CancelIsIdempotent | dacp/orders/signals.py:19 | saving an order again as cancelled, once it is stored as cancelled, credits nothing more |
| OrderSignals.TransitionCredits | dacp/orders/signals.py:19-28 | each existing row gains exactly its items' quantities when the guard holds, and nothing otherwise |
| OrderSignals.StockNeverDecreases | dacp/orders/signals.py:24-28 | no stock counter goes down |
| OrderSignals.UnreferencedRowsUnchanged | dacp/orders/signals.py:24-28 | rows no item refers to are left exactly as they were |
| OrderSignals.TransitionTotal | dacp/orders/signals.py:24-28 | total stock rises by the order's total quantity when the guard holds, and by nothing otherwise |
| OrderSignals.RestoreStockOnCancel | dacp/orders/signals.py:8-28 | the loop leaves the stock table equal to Transition: the guard, then each item's quantity credited to its size |
| CatalogText.LowerString | dacp/main/views.py:60 | folding keeps the length and lower-cases each character |
| CatalogText.IContains | dacp/main/views.py:82 | no contract of its own: `icontains` as containment after ASCII folding; IContainsIgnoresCase states its case independence |
| CatalogText.IExact | dacp/main/views.py:60 | no contract of its own: `iexact` as equality after ASCII folding |
| CatalogText.LowerStringIdempotent | dacp/main/views.py:60 | folding twice is folding once |
| CatalogText.IContainsIgnoresCase | dacp/main/views.py:82 | a search match does not depend on the case of the term or of the field |
| CatalogSort.Insert | dacp/main/views.py:85-91 | inserting into a sorted list keeps it sorted and adds exactly that product |
| CatalogSort.SortBy | dacp/main/views.py:85-91 | `order_by` returns the same products, sorted by the ordering's key |
| CatalogView.AttributeAdmits | dacp/main/views.py:59-66 | no contract of its own: the FILTER_MAPPING lambdas (colour up to case, price bounds inclusive, a size of that exact name); AdmittedMeetsEveryFilter and EveryFilterAdmits state them per parameter |
| CatalogView.RequestedOrder | dacp/main/views.py:85-91 | no contract of its own: price_low ascending price, price_high descending price, anything else newest first; GetContextData's result is sorted by it |
| CatalogView.CategoryAndSearchAdmit | dacp/main/views.py:75-83 | no contract of its own: the category step and the `q` search; CategorySearchSort selects exactly what it admits |
| CatalogView.Admits | dacp/main/views.py:75-100 | no contract of its own: all the steps together; GetContextData lists exactly what it admits, and AdmittedMeetsEveryFilter and EveryFilterAdmits split it into the individual filters |
| CatalogView.Select | dacp/main/views.py:97 | a filter keeps each product the criterion accepts, as often as before, and drops every other |
| CatalogView.SelectKeepsOrder | dacp/main/views.py:77-97 | filtering keeps the order the products were in |
| CatalogView.NarrowStep | dacp/main/views.py:94-100 | one pass of the loop leaves exactly the products that the earlier parameters and parameter i admit, with their multiplicity |
| CatalogView.AttributesAdmitStep | dacp/main/views.py:94-97 | one more parameter admits a product iff the earlier ones do and that parameter is empty or its filter accepts it |
| CatalogView.AdmittedMeetsEveryFilter | dacp/main/views.py:60-83 | a listed product has the category, contains q in name or description, has the colour up to case, lies within both price bounds inclusively and has a size of that name; empty parameters impose nothing |
| CatalogView.EveryFilterAdmits | dacp/main/views.py:60-83 | a product meeting every given filter is listed |
| CatalogView.FilterComposition | dacp/main/views.py:72-100 | the category and search steps followed by the attribute filters list exactly the admitted products, a sub-multiset of the table, without duplicates when the table has none |
| CatalogView.CategorySearchSort | dacp/main/views.py:72-91 | before FILTER_MAPPING, the products are exactly those of the category matching q, in the requested order |
| CatalogView.ApplyFilterMapping | dacp/main/views.py:93-100 | each non-empty parameter narrows the products, keeping their order; filter_params records every parameter's value or ""; an unparsable price fails, and only it does |
| CatalogView.GetContextData | dacp/main/views.py:68-113 | an unknown category is a 404 and a bad price an error; otherwise the products are exactly those Admits accepts, as often as in the table, sorted ascending by price for price_low, descending for price_high, newest first otherwise; filter_params has the four parameters and q, with their values or "" |

## Left out

- Presentation: templates, HTMX header branches, JSON and template rendering. A response is reduced to an `Outcome` or a `CatalogContext`.
- Session bookkeeping: `request.session.create`, `cart_id` and `modified`. `GetCart` takes the session key, or a fresh one supplied by the caller, as parameters.
- Parsing a POST string into an integer is left out. Each integer field arrives already classified as missing, malformed or an integer.
- CartForms.CleanAddToCart: the choice field compares the posted `size_id` with the string of each offered id, so "05" or " 5" is refused there. The model's `Given(v)` carries only the integer and does not capture those string forms.
- Turning a `min_price`/`max_price` string into a Decimal is the parameter `priceOf`. Decimal prices are integer cents, so a sub-cent bound such as `min_price=10.005` cannot be represented.
- The Cart, CartItem, Order and OrderItem models (`dacp/cart/models.py`, `dacp/orders/models.py`) are not part of this model. Their behaviour is modelled by assumption:
  - `Cart.total_items` is the sum of the cart's line quantities.
  - `Cart.clear()` deletes the cart's lines.
  - An order is its primary key, a status among pending, processing, shipped, delivered and cancelled, and its items (ProductSize id, quantity).
  - CartItem's own field validators are not modelled.
- `Cart.subtotal`, CartCountView, CartModalView and CartSummaryView only render or convert to float. They are left out.
- The `-added_at` ordering of rendered lines is presentation and is left out.
- `transaction.atomic` and races between sessions are left out. Each handler is one sequential step on the store.
- The `print` logging in the cancel hook is left out.
- `dacp/users/views.py` and the non-catalog views of `dacp/main/views.py` are left out, as they only query and render.
- Slug derivation through `slugify` is left out. Product's `save` is module-level dead code in `dacp/main/models.py:52-59`.
- OrderSignals.RestoreStockOnCancel: it works on the stock table as a value it returns. The item rows (`item.size`) are assumed to name rows of that table.
- CatalogSort.SortBy: the database leaves the order of equal prices unspecified. The contract states only sortedness and the same products, not which tie order is used.
- CatalogText.IContains: `icontains`/`iexact` fold ASCII letters only. A database collation that folds other letters is not modelled.
- CatalogView.GetContextData: a price the database refuses is reported as an error result. The source raises a ValidationError out of `get_context_data` (dacp/main/views.py:97), because the price lookup converts the bound to a Decimal.
- CatalogView.GetContextData: `.distinct()` is not a separate step. A filter on the sequence never repeats a product, so the result has no duplicates whenever the table has none.
