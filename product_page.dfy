/** The storefront's product page (apps/storefront/src/pages/product.tsx): the product named by the
    route parameter, its description and stock label, up to three related products, and the
    button that puts one unit in the cart.

    The page reads `getProduct(id)` and `listProducts()` as plain values; the model takes them as
    the map `products` (what `getProduct` answers for each id) and the list `catalog`. */
module ProductPage {
  import opened Wrappers
  import opened Records
  import opened Catalog
  import opened Cart

  const Placeholder: string := "A fantastic product carefully crafted."
  const InStock: string := "In stock"
  const OutOfStock: string := "Out of stock"

  /** What the page renders: `Not found.`, or the product with its derived parts. */
  datatype Page =
    | NotFound
    | Details(product: StoreProduct, description: string, stock: string, related: seq<StoreProduct>)

  /** `x.tags.some(t => p.tags.includes(t))` */
  predicate SharesTag(x: StoreProduct, p: StoreProduct) {
    exists t :: t in x.tags && t in p.tags
  }

  /** The related-products filter: another id and a common tag. */
  predicate IsRelated(x: StoreProduct, p: StoreProduct) {
    x.id != p.id && SharesTag(x, p)
  }

  /** `listProducts().filter(x => x.id !== p.id && ...)`, before the cut to three. */
  function RelatedAll(catalog: seq<StoreProduct>, p: StoreProduct): (r: seq<StoreProduct>)
    ensures forall x :: x in r <==> x in catalog && IsRelated(x, p)
    ensures Subsequence(r, catalog)
    ensures forall x :: multiset(r)[x] == if IsRelated(x, p) then multiset(catalog)[x] else 0
  {
    if catalog == [] then []
    else
      assert catalog == [catalog[0]] + catalog[1..];
      if IsRelated(catalog[0], p) then
      var r := [catalog[0]] + RelatedAll(catalog[1..], p);
      assert r[1..] == RelatedAll(catalog[1..], p);
      r
    else RelatedAll(catalog[1..], p)
  }

  /** `.slice(0, 3)` of the filter. */
  function Related(catalog: seq<StoreProduct>, p: StoreProduct): seq<StoreProduct> {
    var all := RelatedAll(catalog, p);
    if |all| <= 3 then all else all[..3]
  }

  /** The first three related products are shown (all of them when there are fewer), each from
      the catalog, neither the product itself nor one without a common tag, in catalog order;
      fewer than three are shown only when the catalog holds no other related product. */
  lemma RelatedFacts(catalog: seq<StoreProduct>, p: StoreProduct)
    ensures Related(catalog, p) <= RelatedAll(catalog, p)
    ensures |Related(catalog, p)| == if |RelatedAll(catalog, p)| < 3 then |RelatedAll(catalog, p)| else 3
    ensures var r := Related(catalog, p);
      && |r| <= 3
      && (forall x :: x in r ==> x in catalog && x.id != p.id && SharesTag(x, p))
      && Subsequence(r, catalog)
      && (|r| < 3 ==> forall x :: x in catalog && IsRelated(x, p) ==> x in r)
  {
    var all := RelatedAll(catalog, p);
    if |all| > 3 {
      PrefixIsSubsequence(all, 3);
      SubsequenceTrans(all[..3], all, catalog);
      forall x | x in all[..3] ensures x in all {
        var k :| 0 <= k < 3 && all[..3][k] == x;
        assert all[k] == x;
      }
    }
  }

  lemma {:induction false} PrefixIsSubsequence<T>(s: seq<T>, n: nat)
    requires n <= |s|
    ensures Subsequence(s[..n], s)
    decreases n
  {
    if n == 0 {
    } else {
      PrefixIsSubsequence(s[1..], n - 1);
      assert s[..n][1..] == s[1..][..n - 1];
    }
  }

  /** `p.description || 'A fantastic product carefully crafted.'`: never empty. */
  function Description(p: StoreProduct): (r: string)
    ensures r != ""
    ensures Truthy(p.description) ==> r == p.description.value
    ensures !Truthy(p.description) ==> r == Placeholder
  {
    if Truthy(p.description) then p.description.value else Placeholder
  }

  /** The stock line: `In stock` exactly when the stock quantity is positive. */
  function StockLabel(p: StoreProduct): (r: string)
    ensures r == InStock <==> p.stockQty > 0
    ensures r == OutOfStock <==> p.stockQty <= 0
  {
    if p.stockQty > 0 then InStock else OutOfStock
  }

  /** `id ? getProduct(id) : undefined`, then the page (lines 9-23). */
  function Render(id: Option<string>, products: map<string, StoreProduct>, catalog: seq<StoreProduct>): Page {
    if id.Some? && id.value != "" && id.value in products then
      var p := products[id.value];
      Details(p, Description(p), StockLabel(p), Related(catalog, p))
    else NotFound
  }

  /** The page is `Not found.` exactly when the route has no id or the id names no product;
      otherwise it shows that product. */
  lemma RenderNotFound(id: Option<string>, products: map<string, StoreProduct>, catalog: seq<StoreProduct>)
    ensures Render(id, products, catalog) == NotFound <==> !Truthy(id) || id.value !in products
    ensures Truthy(id) && id.value in products ==>
      Render(id, products, catalog).product == products[id.value]
  {}

  /** The button: `add({id, title, price, image}, 1)` puts one more unit of the product in the
      cart, raising the total by one unit's price. */
  method AddToCart(cart: CartStore, p: StoreProduct)
    modifies cart
    ensures cart.items == Added(old(cart.items), NewItem(p.id, p.title, p.price, p.image), 1)
    ensures IdsUnique(old(cart.items)) ==> IdsUnique(cart.items)
    ensures !HasId(old(cart.items), p.id) ==> Total(cart.items) == Total(old(cart.items)) + p.price
  {
    cart.Add(NewItem(p.id, p.title, p.price, p.image), 1);
  }
}
