/** The product routes (apps/api/src/routes/products.js): how the listing turns its query string
    into a filter, a sort and a page window, the page arithmetic, and product creation with its
    defaults. */
module ProductRoutes {
  import opened Wrappers
  import opened Records

  /** The query parameters of GET /api/products; `None` is an absent parameter. `page` and `limit`
      are the values `parseInt` yields. */
  datatype ListParams = ListParams(
    search: Option<string>, tag: Option<string>, sort: Option<string>, page: Option<int>, limit: Option<int>)

  /** The order the listing asks the database for. */
  datatype SortKey = ByName | PriceAscending | PriceDescending | TextScore

  /** The `find` filter: a `$text` search and a `tags: { $in: [tag] }` clause, each optional. */
  datatype Filter = Filter(text: Option<string>, tag: Option<string>)

  /** What the handler sends to the database and echoes in `pagination`. */
  datatype ListPlan = ListPlan(filter: Filter, order: SortKey, page: int, limit: int, skip: int)

  /** The parameters once the defaults are in place. */
  datatype Settings = Settings(search: string, tag: string, sort: string, page: int, limit: int)

  /** The destructuring defaults of lines 8-14; they apply only to absent parameters. */
  function WithDefaults(p: ListParams): Settings {
    Settings(p.search.GetOr(""), p.tag.GetOr(""), p.sort.GetOr("name"), p.page.GetOr(1), p.limit.GetOr(20))
  }

  /** Lines 17-62: the text clause only for a non-empty search, the tag clause only for a non-empty
      tag; price ascending or descending for `price_asc` and `price_desc`, name for anything else,
      and text-score order whenever there is a text clause; skip is (page - 1) times limit. */
  function Plan(p: ListParams): (r: ListPlan)
    ensures var Settings(search, tag, sort, page, limit) := WithDefaults(p);
      && (r.filter.text.Some? <==> search != "") && (r.filter.text.Some? ==> r.filter.text.value == search)
      && (r.filter.tag.Some? <==> tag != "") && (r.filter.tag.Some? ==> r.filter.tag.value == tag)
      && (r.order == TextScore <==> search != "")
      && (search == "" ==>
            (r.order == PriceAscending <==> sort == "price_asc")
            && (r.order == PriceDescending <==> sort == "price_desc")
            && (r.order == ByName <==> sort != "price_asc" && sort != "price_desc"))
      && r.page == page && r.limit == limit && r.skip == (page - 1) * limit
  {
    var Settings(search, tag, sort, page, limit) := WithDefaults(p);
    var filter := Filter(if search != "" then Some(search) else None, if tag != "" then Some(tag) else None);
    var sortObj := if sort == "price_asc" then PriceAscending else if sort == "price_desc" then PriceDescending else ByName;
    ListPlan(filter, if filter.text.Some? then TextScore else sortObj, page, limit, (page - 1) * limit)
  }

  /** A request without parameters lists everything by name, twenty to a page, from the start. */
  lemma PlanDefaults()
    ensures Plan(ListParams(None, None, None, None, None)) == ListPlan(Filter(None, None), ByName, 1, 20, 0)
  {}

  /** `Math.ceil(total / limit)` as JSON writes it: `null` for a zero limit (Infinity or NaN). For
      a negative limit the quotient is not positive and its ceiling `r` satisfies
      `r - 1 < total / limit <= r`, that is `r * limit <= total < (r - 1) * limit`. */
  function Pages(total: nat, limit: int): (r: Option<int>)
    ensures limit == 0 <==> r.None?
    ensures limit > 0 ==> r.value >= 0 && (r.value - 1) * limit < total <= r.value * limit
    ensures limit < 0 ==> r.value <= 0 && r.value * limit <= total < (r.value - 1) * limit
  {
    if limit > 0 then Some((total + limit - 1) / limit)
    else if limit == 0 then None
    else
      var m := -limit;
      var q := total / m;
      assert q * m <= total < (q + 1) * m;
      assert -q * limit == q * m && (-q - 1) * limit == (q + 1) * m;
      Some(-q)
  }

  /** With a positive limit, the match at position `i` falls in the window of page
      `i / limit + 1`, which lies between 1 and `pages`: paging through all pages sees every match. */
  lemma PageCovers(total: nat, limit: int, i: nat)
    requires limit > 0 && i < total
    ensures var page := i / limit + 1;
      1 <= page <= Pages(total, limit).value && (page - 1) * limit <= i < (page - 1) * limit + limit
  {
    var page := i / limit + 1;
    assert (page - 1) * limit == i - i % limit;
    var pages := Pages(total, limit).value;
    assert (pages - 1) * limit < total <= pages * limit;
  }

  /** `.skip(skip).limit(limit)` on the matching documents in query order. A limit of 0 means no
      limit; a negative one is taken by its magnitude; a negative skip is refused. */
  function PageWindow<T>(matches: seq<T>, skip: int, limit: int): (r: Option<seq<T>>)
    ensures skip < 0 <==> r.None?
    ensures r.Some? ==> var from := if skip < |matches| then skip else |matches|;
      r.value <= matches[from..] && (limit != 0 && from + (if limit > 0 then limit else -limit) <= |matches| ==> |r.value| == if limit > 0 then limit else -limit)
    ensures r.Some? && (limit == 0 || skip + (if limit > 0 then limit else -limit) >= |matches|) ==>
      r.value == if skip < |matches| then matches[skip..] else []
  {
    if skip < 0 then None
    else
      var rest := if skip < |matches| then matches[skip..] else [];
      var n := if limit > 0 then limit else -limit;
      Some(if limit == 0 || n >= |rest| then rest else rest[..n])
  }

  /** The listing's body: the page of matches and the `pagination` object. */
  datatype Listing = Listing(products: seq<Product>, page: int, limit: int, total: nat, pages: Option<int>)

  /** GET /api/products (lines 6-83), given the documents that match the plan's filter in the
      plan's order. A negative skip makes the database call throw, which answers 500. */
  function ListProducts(p: ListParams, matches: seq<Product>): (r: Reply<Listing>)
    ensures var plan := Plan(p);
      && (plan.skip < 0 <==> r == Err(500, "Internal server error"))
      && (plan.skip >= 0 ==> r.Ok?)
      && (r.Ok? ==>
            && r.status == 200 && r.value.total == |matches| && r.value.page == plan.page && r.value.limit == plan.limit
            && r.value.pages == Pages(|matches|, plan.limit)
            && Some(r.value.products) == PageWindow(matches, plan.skip, plan.limit))
  {
    var plan := Plan(p);
    match PageWindow(matches, plan.skip, plan.limit)
    case None => Err(500, "Internal server error")
    case Some(window) => Ok(200, Listing(window, plan.page, plan.limit, |matches|, Pages(|matches|, plan.limit)))
  }

  /** GET /api/products/:id (lines 86-99). */
  function GetProduct(products: map<string, Product>, id: string): (r: Reply<Product>)
    ensures id in products <==> r.Ok?
    ensures r.Ok? ==> r.status == 200 && r.value == products[id]
    ensures r.Err? ==> r == Err(404, "Product not found")
  {
    if id in products then Ok(200, products[id]) else Err(404, "Product not found")
  }

  /** The body of POST /api/products; `price` and `stock` are JSON numbers. */
  datatype ProductBody = ProductBody(
    name: Option<string>, description: Option<string>, price: Option<int>, category: Option<string>,
    tags: Option<seq<string>>, imageUrl: Option<string>, stock: Option<int>)

  /** Lines 106-118: a missing or empty name and a missing or zero price are refused with 400;
      tags default to the empty list and a missing or zero stock to 0; the rest is copied. */
  function NewProduct(b: ProductBody, now: Date): (r: Reply<Product>)
    ensures r.Err? <==> !Truthy(b.name) || b.price.None? || b.price.value == 0
    ensures r.Err? ==> r == Err(400, "Name and price are required")
    ensures r.Ok? ==>
      && r.status == 201 && r.value.name == b.name.value && r.value.price == b.price.value
      && r.value.description == b.description && r.value.category == b.category && r.value.imageUrl == b.imageUrl
      && r.value.tags == (if b.tags.Some? then b.tags.value else [])
      && r.value.stock == (if b.stock.Some? then b.stock.value else 0)
      && r.value.createdAt == now
  {
    if !Truthy(b.name) || b.price.None? || b.price.value == 0 then Err(400, "Name and price are required")
    else Ok(201, Product(b.name.value, b.description, b.price.value, b.category,
                         b.tags.GetOr([]), b.imageUrl, if b.stock.Some? && b.stock.value != 0 then b.stock.value else 0, now))
  }

  /** POST /api/products: saves the new product under the fresh id `newId` when it is accepted. */
  method CreateProduct(db: Database, b: ProductBody, newId: string, now: Date) returns (r: Reply<Product>)
    requires newId !in db.products
    modifies db`products
    ensures r == NewProduct(b, now)
    ensures db.products == if r.Ok? then old(db.products)[newId := r.value] else old(db.products)
  {
    r := NewProduct(b, now);
    if r.Ok? {
      db.products := db.products[newId := r.value];
    }
  }
}
