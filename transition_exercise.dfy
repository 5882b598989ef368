/**
 * The useTransition exercise: numbered library and dashboard items, a generated product
 * catalogue, and the product filter panel whose `handleFilterChange` sets each filter that
 * was passed and re-filters the catalogue with the passed value or, when an argument is
 * `undefined`, the current one.
 */
module TransitionExercise {
  import opened Wrappers
  import opened JsString
  import opened Seqs
  import opened JsRandom

  /** Item i of `generateItems(count, prefix)`: "<prefix> <i + 1>". */
  function Numbered(prefix: string, i: nat): string {
    prefix + " " + NatToString(i + 1)
  }

  /** `generateItems(count, prefix)` */
  method GenerateItems(count: int, prefix: string) returns (items: seq<string>)
    ensures |items| == if count > 0 then count else 0
    ensures forall i :: 0 <= i < |items| ==> items[i] == Numbered(prefix, i)
  {
    items := [];
    var i := 0;
    while i < count
      invariant 0 <= i <= if count > 0 then count else 0
      invariant |items| == i
      invariant forall k :: 0 <= k < i ==> items[k] == Numbered(prefix, k)
    {
      items := items + [prefix + " " + NatToString(i + 1)];
      i := i + 1;
    }
  }

  /** Generated items are pairwise different. */
  lemma NumberedDistinct(prefix: string, i: nat, j: nat)
    requires Numbered(prefix, i) == Numbered(prefix, j)
    ensures i == j
  {
    NumberedLabelsDistinct(prefix, i + 1, prefix, j + 1);
  }

  const Categories: seq<string> := ["Electronics", "Clothing", "Books", "Home", "Sports"]

  datatype Product = Product(id: int, name: string, category: string, price: int, inStock: bool)

  /**
   * `generateProducts(count)`: product i has category `categories[i % 5]` and takes two draws of
   * `Math.random()`, one for the price (`floor(r * 500) + 10`) and one for `inStock` (`r > 0.3`).
   */
  method GenerateProducts(count: int, draws: seq<(Draw, Draw)>) returns (products: seq<Product>)
    requires count <= |draws|
    ensures |products| == if count > 0 then count else 0
    ensures forall i :: 0 <= i < |products| ==>
      products[i] == Product(i, "Product " + NatToString(i + 1), Categories[i % 5],
                             FloorTimes(draws[i].0, 500) + 10, AboveThreeTenths(draws[i].1))
    ensures forall i :: 0 <= i < |products| ==> 10 <= products[i].price < 510
  {
    products := [];
    var i := 0;
    while i < count
      invariant 0 <= i <= if count > 0 then count else 0
      invariant |products| == i
      invariant forall k :: 0 <= k < i ==>
        products[k] == Product(k, "Product " + NatToString(k + 1), Categories[k % 5],
                               FloorTimes(draws[k].0, 500) + 10, AboveThreeTenths(draws[k].1))
    {
      var p := Product(i, "Product " + NatToString(i + 1), Categories[i % |Categories|],
                       FloorTimes(draws[i].0, 500) + 10, AboveThreeTenths(draws[i].1));
      products := products + [p];
      i := i + 1;
    }
  }

  /** The three conditions of the `filterProducts` callback. */
  predicate Shown(p: Product, category: string, inStockOnly: bool, maxPrice: int) {
    (category == "all" || p.category == category) && (!inStockOnly || p.inStock) && p.price <= maxPrice
  }

  /** `filterProducts(products, category, inStockOnly, maxPrice)` */
  function FilterProducts(products: seq<Product>, category: string, inStockOnly: bool, maxPrice: int): (r: seq<Product>)
    ensures forall p :: p in r <==> p in products && (category == "all" || p.category == category) &&
                                    (!inStockOnly || p.inStock) && p.price <= maxPrice
    ensures IsSubsequence(r, products)
  {
    var keep := (p: Product) => Shown(p, category, inStockOnly, maxPrice);
    forall p ensures p in Filter(products, keep) <==> p in products && keep(p) {
      FilterMembers(products, keep, p);
    }
    FilterIsSubsequence(products, keep);
    Filter(products, keep)
  }

  /** With every filter open (all categories, any stock, price cap at least every price) nothing is dropped. */
  lemma FilterProductsOpen(products: seq<Product>, maxPrice: int)
    requires forall i :: 0 <= i < |products| ==> products[i].price <= maxPrice
    ensures FilterProducts(products, "all", false, maxPrice) == products
  {
    FilterAll(products, (p: Product) => Shown(p, "all", false, maxPrice));
  }

  /** Raising the price cap never hides a product that was shown. */
  lemma FilterProductsPriceMonotone(products: seq<Product>, category: string, inStockOnly: bool, lo: int, hi: int, p: Product)
    requires lo <= hi && p in FilterProducts(products, category, inStockOnly, lo)
    ensures p in FilterProducts(products, category, inStockOnly, hi)
  {
  }

  /** The filter panel's state: the three filters and the list on screen. */
  class ProductFilterPanel {
    const products: seq<Product>
    var category: string
    var inStockOnly: bool
    var maxPrice: int
    var filtered: seq<Product>

    /** The list on screen is the catalogue filtered by the filters on screen. */
    predicate Valid()
      reads this
    {
      filtered == FilterProducts(products, category, inStockOnly, maxPrice)
    }

    /**
     * The initial state as written: "all", unchecked, 500, and the whole catalogue on screen,
     * although prices go up to 509.
     */
    constructor AsWritten(catalogue: seq<Product>)
      ensures products == catalogue && category == "all" && !inStockOnly && maxPrice == 500
      ensures filtered == catalogue
    {
      products := catalogue;
      category := "all";
      inStockOnly := false;
      maxPrice := 500;
      filtered := catalogue;
    }

    /** The initial state with the list on screen filtered by the initial filters. */
    constructor (catalogue: seq<Product>)
      ensures products == catalogue && category == "all" && !inStockOnly && maxPrice == 500
      ensures Valid()
    {
      products := catalogue;
      category := "all";
      inStockOnly := false;
      maxPrice := 500;
      filtered := FilterProducts(catalogue, "all", false, 500);
    }

    /** `handleFilterChange(newCategory?, newInStockOnly?, newMaxPrice?)`, with `undefined` as None. */
    method HandleFilterChange(newCategory: Option<string>, newInStockOnly: Option<bool>, newMaxPrice: Option<int>)
      modifies this
      ensures category == newCategory.GetOr(old(category))
      ensures inStockOnly == newInStockOnly.GetOr(old(inStockOnly))
      ensures maxPrice == newMaxPrice.GetOr(old(maxPrice))
      ensures filtered == FilterProducts(products, category, inStockOnly, maxPrice)
      ensures Valid()
    {
      var currentCategory, currentInStockOnly, currentMaxPrice := category, inStockOnly, maxPrice;
      if newCategory.Some? { category := newCategory.value; }
      if newInStockOnly.Some? { inStockOnly := newInStockOnly.value; }
      if newMaxPrice.Some? { maxPrice := newMaxPrice.value; }
      filtered := FilterProducts(products, newCategory.GetOr(currentCategory),
                                 newInStockOnly.GetOr(currentInStockOnly), newMaxPrice.GetOr(currentMaxPrice));
    }
  }

  /**
   * A catalogue product priced 509 is reachable (`floor(r * 500) = 499` for some draw) and is on
   * screen in the initial state as written, yet the filters on screen (max price 500) hide it.
   */
  lemma InitialListIgnoresMaxPrice()
    ensures exists k: Draw :: FloorTimes(k, 500) + 10 == 509
    ensures var p := Product(0, "Product 1", "Electronics", 509, true);
      FilterProducts([p], "all", false, 500) == [] && [p] != FilterProducts([p], "all", false, 500)
  {
    FloorTimesReaches(499, 500);
    var p := Product(0, "Product 1", "Electronics", 509, true);
    assert !Shown(p, "all", false, 500);
  }
}
