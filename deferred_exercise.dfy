/**
 * The useDeferredValue exercise: a generated catalogue of six categories, the search and
 * category filter over it, and the price and rating sorts on a copy of the list.
 */
module DeferredExercise {
  import opened JsString
  import opened Seqs
  import opened JsRandom
  import Search

  const Categories: seq<string> := ["Electronics", "Clothing", "Books", "Home", "Sports", "Toys"]

  /**
   * A product; `rating` is the text `(r * 5).toFixed(1)`, kept here as its value in tenths
   * (the text "3.7" is 37), which is what `Number(rating)` compares.
   */
  datatype Product = Product(id: int, name: string, category: string, price: int, ratingTenths: int)

  /**
   * `generateProducts(count)`: product i has id i, category `categories[i % 6]` and takes two
   * draws of `Math.random()`, one for the price (`floor(r * 1000) + 10`) and one for the rating.
   */
  method GenerateProducts(count: int, draws: seq<(Draw, Draw)>) returns (products: seq<Product>)
    requires count <= |draws|
    ensures |products| == if count > 0 then count else 0
    ensures forall i :: 0 <= i < |products| ==>
      products[i] == Product(i, "Product " + NatToString(i + 1), Categories[i % 6],
                             FloorTimes(draws[i].0, 1000) + 10, TenthsOfFive(draws[i].1))
    ensures forall i :: 0 <= i < |products| ==> 10 <= products[i].price < 1010 && 0 <= products[i].ratingTenths <= 50
  {
    products := [];
    var i := 0;
    while i < count
      invariant 0 <= i <= if count > 0 then count else 0
      invariant |products| == i
      invariant forall k :: 0 <= k < i ==>
        products[k] == Product(k, "Product " + NatToString(k + 1), Categories[k % 6],
                               FloorTimes(draws[k].0, 1000) + 10, TenthsOfFive(draws[k].1))
    {
      var p := Product(i, "Product " + NatToString(i + 1), Categories[i % |Categories|],
                       FloorTimes(draws[i].0, 1000) + 10, TenthsOfFive(draws[i].1));
      products := products + [p];
      i := i + 1;
    }
  }

  /** The `filterProducts` callback: a non-empty query must occur in the name, and a category other than "all" must match exactly. */
  predicate Shown(p: Product, query: string, category: string) {
    (query == "" || Search.Matches(p.name, query)) && (category == "all" || p.category == category)
  }

  /** `filterProducts(products, query, category)` */
  function FilterProducts(products: seq<Product>, query: string, category: string): (r: seq<Product>)
    ensures forall p :: p in r <==> p in products && (query == "" || Search.Matches(p.name, query)) &&
                                    (category == "all" || p.category == category)
    ensures IsSubsequence(r, products)
  {
    var keep := (p: Product) => Shown(p, query, category);
    forall p ensures p in Filter(products, keep) <==> p in products && keep(p) {
      FilterMembers(products, keep, p);
    }
    FilterIsSubsequence(products, keep);
    Filter(products, keep)
  }

  /** An empty query with category "all" keeps the whole list. */
  lemma FilterProductsEverything(products: seq<Product>)
    ensures FilterProducts(products, "", "all") == products
  {
    FilterAll(products, (p: Product) => Shown(p, "", "all"));
  }

  /** The two conditions are independent: filtering by both is filtering by one, then the other. */
  lemma FilterProductsComposes(products: seq<Product>, query: string, category: string)
    ensures FilterProducts(products, query, category) ==
            FilterProducts(FilterProducts(products, query, "all"), "", category)
  {
    var both := (p: Product) => Shown(p, query, category);
    var byQuery := (p: Product) => Shown(p, query, "all");
    var byCategory := (p: Product) => Shown(p, "", category);
    FilterTwice(products, both, byQuery, byCategory);
  }

  datatype NumericSort = ByPrice | ByRating

  /** `[...items].sort(...)` for "price" (`a.price - b.price`) and "rating" (`Number(b.rating) - Number(a.rating)`). */
  function SortProducts(products: seq<Product>, order: NumericSort): (r: seq<Product>)
    ensures multiset(r) == multiset(products)
    ensures order == ByPrice ==> forall i, j :: 0 <= i < j < |r| ==> r[i].price <= r[j].price
    ensures order == ByRating ==> forall i, j :: 0 <= i < j < |r| ==> r[i].ratingTenths >= r[j].ratingTenths
  {
    match order
    case ByPrice => SortBy(products, (p: Product) => p.price)
    case ByRating =>
      SortByNegatedIsDescending(products, (p: Product) => p.ratingTenths);
      SortBy(products, (p: Product) => -p.ratingTenths)
  }
}
