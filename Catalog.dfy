/**
 * The shop's read-only catalog pages: the active product list, search,
 * category listing and the product page with its related products. Each
 * page first requires a signed-in session.
 */
module Catalog {
  import opened Wrappers
  import opened Models
  import opened Seqs
  import opened Text
  import opened Sessions
  import opened Store
  import opened Pricing

  const RelatedLimit: nat := 4

  datatype ListPage = ListToLogin | ProductList(items: seq<Product>)

  datatype DetailPage = DetailToLogin | DetailToIndex | ProductDetail(product: Product, related: seq<Product>)

  /** The search query occurs, ignoring case, in the name, description, category or manufacturer. */
  predicate MatchesQuery(p: Product, query: string)
  {
    ContainsIgnoreCase(p.name, query) || ContainsIgnoreCase(p.description, query)
    || ContainsIgnoreCase(p.category, query) || ContainsIgnoreCase(p.manufacturer, query)
  }

  /** `Shop/Index`: every active product. */
  function ShopIndex(values: map<string, string>, products: seq<Product>): (r: ListPage)
    ensures r.ListToLogin? <==> !LoggedIn(values)
    ensures r.ProductList? ==> forall p :: p in r.items <==> p in products && p.isActive
  {
    if !LoggedIn(values) then ListToLogin else ProductList(ActiveProducts(products))
  }

  /** `Shop/Search`: exactly the active products that match the query. */
  function Search(values: map<string, string>, products: seq<Product>, query: string): (r: ListPage)
    ensures r.ListToLogin? <==> !LoggedIn(values)
    ensures r.ProductList? ==> forall p :: p in r.items <==> p in products && p.isActive && MatchesQuery(p, query)
  {
    if !LoggedIn(values) then ListToLogin
    else ProductList(Filter(ActiveProducts(products), (p: Product) => MatchesQuery(p, query)))
  }

  /** `Shop/Category`: exactly the active products whose category equals the given one, ignoring case. */
  function Category(values: map<string, string>, products: seq<Product>, category: string): (r: ListPage)
    ensures r.ListToLogin? <==> !LoggedIn(values)
    ensures r.ProductList? ==> forall p :: p in r.items <==> p in products && p.isActive && EqualsIgnoreCase(p.category, category)
  {
    if !LoggedIn(values) then ListToLogin
    else ProductList(Filter(ActiveProducts(products), (p: Product) => EqualsIgnoreCase(p.category, category)))
  }

  /** Another active product of the same category. */
  predicate IsRelated(q: Product, product: Product)
  {
    q.category == product.category && q.id != product.id
  }

  function RelatedProducts(active: seq<Product>, product: Product): seq<Product>
  {
    Take(Filter(active, (q: Product) => IsRelated(q, product)), RelatedLimit)
  }

  /**
   * `Shop/Product`: the active product with that id, if any, and up to four
   * other active products of its category; fewer than four are shown only
   * when there are no more.
   */
  function ProductPage(values: map<string, string>, products: seq<Product>, id: nat): (r: DetailPage)
    ensures r.DetailToLogin? <==> !LoggedIn(values)
    ensures LoggedIn(values) ==> (r.ProductDetail? <==> exists p :: p in products && p.isActive && p.id == id)
    ensures r.ProductDetail? ==> r.product in products && r.product.isActive && r.product.id == id
    ensures r.ProductDetail? ==> |r.related| <= RelatedLimit
    ensures r.ProductDetail? ==> forall q :: q in r.related ==> q in products && q.isActive && IsRelated(q, r.product)
    ensures r.ProductDetail? ==> forall q :: q in products && q.isActive && IsRelated(q, r.product) ==>
      q in r.related || |r.related| == RelatedLimit
  {
    if !LoggedIn(values) then DetailToLogin
    else
      var active := ActiveProducts(products);
      match FindProduct(active, id)
      case None => DetailToIndex
      case Some(i) => ProductDetail(active[i], RelatedProducts(active, active[i]))
  }
}
