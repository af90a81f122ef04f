/**
 * The product catalogue page: the list query built from the search and the two filters, the
 * statistics cards (count, active count, total and average price, distinct categories) and
 * the confirmed delete. Prices are exact reals here.
 */
module ProductsList {
  import opened Wrappers

  /** The input of the product list query. */
  datatype ProductsQuery = ProductsQuery(search: Option<string>, productType: Option<string>, isActive: Option<bool>)

  /** The query for the search text, the type filter and the status filter. */
  function QueryFor(search: string, typeFilter: string, statusFilter: string): ProductsQuery {
    ProductsQuery(
      if search == "" then None else Some(search),
      if typeFilter == "all" then None else Some(typeFilter),
      if statusFilter == "all" then None else Some(statusFilter == "active"))
  }

  /**
   * An empty search and the "all" filters send nothing; any other type is sent as is; the
   * status "active" asks for active products and any other status for inactive ones.
   */
  lemma QueryMapping(search: string, typeFilter: string, statusFilter: string)
    ensures var q := QueryFor(search, typeFilter, statusFilter);
            && (q.search.None? <==> search == "") && (q.search.Some? ==> q.search.value == search)
            && (q.productType.None? <==> typeFilter == "all")
            && (q.productType.Some? ==> q.productType.value == typeFilter)
            && (q.isActive.None? <==> statusFilter == "all")
            && (q.isActive == Some(true) <==> statusFilter == "active")
            && (q.isActive == Some(false) <==> statusFilter != "all" && statusFilter != "active")
  {
  }

  datatype Product = Product(id: string, isActive: bool, price: real, category: Option<string>)

  /** `totalProducts`: the number of products, 0 before they are loaded. */
  function TotalProducts(products: Option<seq<Product>>): nat {
    if products.None? then 0 else |products.value|
  }

  /** The products that are active, in order. */
  function Active(ps: seq<Product>): (r: seq<Product>)
    ensures |r| <= |ps|
    ensures forall p :: p in r <==> p in ps && p.isActive
  {
    if ps == [] then []
    else
      var rest := Active(ps[..|ps| - 1]);
      var last := ps[|ps| - 1];
      assert forall p :: p in ps <==> p in ps[..|ps| - 1] || p == last;
      if last.isActive then rest + [last] else rest
  }

  /** `activeProducts`. */
  function ActiveProducts(products: Option<seq<Product>>): nat {
    if products.None? then 0 else |Active(products.value)|
  }

  /**
   * There are never more active products than products; all are active exactly when every
   * product is, and none when no product is.
   */
  lemma {:induction false} ActiveCount(ps: seq<Product>)
    ensures |Active(ps)| <= |ps|
    ensures |Active(ps)| == |ps| <==> forall i :: 0 <= i < |ps| ==> ps[i].isActive
    ensures |Active(ps)| == 0 <==> forall i :: 0 <= i < |ps| ==> !ps[i].isActive
  {
    if ps != [] {
      var init, last := ps[..|ps| - 1], ps[|ps| - 1];
      ActiveCount(init);
      assert forall i :: 0 <= i < |init| ==> init[i] == ps[i];
      if last.isActive {
        assert Active(ps) == Active(init) + [last];
      } else {
        assert Active(ps) == Active(init);
        assert !ps[|ps| - 1].isActive;
      }
    }
  }

  /** The stats card's count and active count agree: active ≤ total. */
  lemma ActiveAtMostTotal(products: Option<seq<Product>>)
    ensures ActiveProducts(products) <= TotalProducts(products)
    ensures products.None? ==> TotalProducts(products) == 0 && ActiveProducts(products) == 0
  {
  }

  /** The sum of the prices. */
  function Sum(ps: seq<Product>): real {
    if ps == [] then 0.0 else Sum(ps[..|ps| - 1]) + ps[|ps| - 1].price
  }

  /** `totalValue`: the sum of the prices, 0 before the products are loaded. */
  function TotalValue(products: Option<seq<Product>>): real {
    if products.None? then 0.0 else Sum(products.value)
  }

  /** `avgPrice`: the mean price, 0 without products. */
  function AveragePrice(products: Option<seq<Product>>): real {
    if TotalProducts(products) > 0 then TotalValue(products) / TotalProducts(products) as real else 0.0
  }

  /** Prices between `lo` and `hi` sum to between `n·lo` and `n·hi`. */
  lemma {:induction false} SumBounds(ps: seq<Product>, lo: real, hi: real)
    requires forall i :: 0 <= i < |ps| ==> lo <= ps[i].price <= hi
    ensures |ps| as real * lo <= Sum(ps) <= |ps| as real * hi
  {
    if ps != [] {
      var init := ps[..|ps| - 1];
      assert forall i :: 0 <= i < |init| ==> init[i] == ps[i];
      SumBounds(init, lo, hi);
    }
  }

  /** A quotient of a sum bounded by `n·lo` and `n·hi` lies between `lo` and `hi`. */
  lemma MeanBounds(sum: real, n: real, lo: real, hi: real)
    requires n > 0.0 && n * lo <= sum <= n * hi
    ensures lo <= sum / n <= hi
  {
    assert sum == n * (sum / n);
  }

  /**
   * The average is 0 without products; with products whose prices all lie between `lo` and
   * `hi`, the average does too.
   */
  lemma AveragePriceSpec(products: Option<seq<Product>>, lo: real, hi: real)
    ensures TotalProducts(products) == 0 ==> AveragePrice(products) == 0.0
    ensures (products.Some? && products.value != [] &&
             forall i :: 0 <= i < |products.value| ==> lo <= products.value[i].price <= hi) ==>
              lo <= AveragePrice(products) <= hi
  {
    if products.Some? && products.value != [] && (forall i :: 0 <= i < |products.value| ==> lo <= products.value[i].price <= hi) {
      var ps := products.value;
      SumBounds(ps, lo, hi);
      MeanBounds(Sum(ps), |ps| as real, lo, hi);
    }
  }

  /** The non-empty categories of the products. */
  function Categories(ps: seq<Product>): set<string> {
    if ps == [] then {}
    else
      var last := ps[|ps| - 1];
      Categories(ps[..|ps| - 1]) + (if Truthy(last.category) then {last.category.value} else {})
  }

  /** The "Categories" card: the number of distinct non-empty categories, 0 before loading. */
  function CategoryCount(products: Option<seq<Product>>): nat {
    if products.None? then 0 else |Categories(products.value)|
  }

  /**
   * A category is counted exactly when some product has it and it is not empty, and there
   * are never more categories than products.
   */
  lemma {:induction false} CategoriesSpec(ps: seq<Product>, c: string)
    ensures c in Categories(ps) <==> c != "" && exists i :: 0 <= i < |ps| && ps[i].category == Some(c)
    ensures |Categories(ps)| <= |ps|
  {
    if ps != [] {
      var init, last := ps[..|ps| - 1], ps[|ps| - 1];
      CategoriesSpec(init, c);
      if c != "" && last.category != Some(c) && exists i :: 0 <= i < |ps| && ps[i].category == Some(c) {
        var i :| 0 <= i < |ps| && ps[i].category == Some(c);
        assert init[i] == ps[i];
      }
      if c in Categories(init) {
        var i :| 0 <= i < |init| && init[i].category == Some(c);
        assert ps[i] == init[i];
      }
    }
  }

  /** `handleDelete`: the delete request for the product, issued only when the user confirms. */
  function DeleteRequest(id: string, confirmed: bool): (r: Option<string>)
    ensures r.Some? <==> confirmed
    ensures r.Some? ==> r.value == id
  {
    if confirmed then Some(id) else None
  }
}
