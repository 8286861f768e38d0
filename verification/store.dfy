/**
 * The catalog rows the cart engine, the order hook and the catalog view read:
 * Category, Product and ProductSize of dacp/main/models.py. Only the fields the
 * core reads are kept; prices are integer cents instead of two-decimal amounts.
 */
module Store {
  import opened Wrappers

  datatype Category = Category(id: nat, name: string, slug: string)

  datatype Product = Product(
    id: nat,
    name: string,
    slug: string,
    categoryId: nat,
    color: string,
    priceCents: int,
    description: string,
    createdAt: int)

  /** One (product, size) pairing with its stock counter, a PositiveIntegerField. */
  datatype ProductSize = ProductSize(id: nat, product: nat, sizeName: string, stock: nat)

  /**
   * The ProductSize table is kept in primary-key order, which is the order an
   * unordered query's `.first()` picks from.
   */
  ghost predicate IdsIncreasing(rows: seq<ProductSize>)
  {
    forall i, j :: 0 <= i < j < |rows| ==> rows[i].id < rows[j].id
  }

  /** The index of the row with primary key `id`, if there is one. */
  function FindSize(rows: seq<ProductSize>, id: nat): (r: Option<nat>)
    ensures r.Some? ==> r.value < |rows| && rows[r.value].id == id
    ensures r.Some? ==> forall j :: 0 <= j < r.value ==> rows[j].id != id
    ensures r.None? ==> forall j :: 0 <= j < |rows| ==> rows[j].id != id
  {
    if |rows| == 0 then None
    else if rows[0].id == id then Some(0)
    else match FindSize(rows[1..], id)
      case None => None
      case Some(k) => Some(k + 1)
  }

  predicate HasSize(rows: seq<ProductSize>, id: nat)
  {
    FindSize(rows, id).Some?
  }

  /** The stock counter of row `id`; a missing row reads as no stock. */
  function StockOf(rows: seq<ProductSize>, id: nat): nat
  {
    match FindSize(rows, id)
    case Some(k) => rows[k].stock
    case None => 0
  }

  /** With distinct primary keys, the row at index `k` is the one found by its key. */
  lemma FindSizeAt(rows: seq<ProductSize>, k: nat)
    requires IdsIncreasing(rows)
    requires k < |rows|
    ensures FindSize(rows, rows[k].id) == Some(k)
    ensures StockOf(rows, rows[k].id) == rows[k].stock
  {
  }

  /** `get_object_or_404(Product, slug=...)`: slugs are unique, so the first match is the product. */
  function FindProduct(products: seq<Product>, slug: string): (r: Option<nat>)
    ensures r.Some? ==> r.value < |products| && products[r.value].slug == slug
    ensures r.Some? ==> forall j :: 0 <= j < r.value ==> products[j].slug != slug
    ensures r.None? ==> forall j :: 0 <= j < |products| ==> products[j].slug != slug
  {
    if |products| == 0 then None
    else if products[0].slug == slug then Some(0)
    else match FindProduct(products[1..], slug)
      case None => None
      case Some(k) => Some(k + 1)
  }

  /** `get_object_or_404(Category, slug=...)`. */
  function FindCategory(categories: seq<Category>, slug: string): (r: Option<Category>)
    ensures r.Some? ==> r.value in categories && r.value.slug == slug
    ensures r.None? ==> forall c :: c in categories ==> c.slug != slug
  {
    if |categories| == 0 then None
    else if categories[0].slug == slug then Some(categories[0])
    else FindCategory(categories[1..], slug)
  }
}
