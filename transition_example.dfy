/**
 * The data behind the useTransition demo: the 5000 tutorial titles searched by
 * `filterItems`, the three tabs of generated content, and the product list sorted by price or
 * by rating on a copy.
 */
module TransitionExample {
  import opened JsString
  import opened Seqs
  import opened JsRandom
  import Search

  const Categories: seq<string> := ["React", "TypeScript", "JavaScript", "CSS", "HTML", "Node.js", "Python", "Java"]

  /** Title i of `generateItems`: "<category> Tutorial <i + 1>". */
  function Tutorial(i: nat): string {
    Categories[i % |Categories|] + " Tutorial " + NatToString(i + 1)
  }

  /** `generateItems(count)`: a for-loop pushing one title per index. */
  method GenerateItems(count: int) returns (items: seq<string>)
    ensures |items| == if count > 0 then count else 0
    ensures forall i :: 0 <= i < |items| ==> items[i] == Tutorial(i)
  {
    items := [];
    var i := 0;
    while i < count
      invariant 0 <= i && |items| == i
      invariant i <= if count > 0 then count else 0
      invariant forall k :: 0 <= k < i ==> items[k] == Tutorial(k)
    {
      items := items + [Categories[i % |Categories|] + " Tutorial " + NatToString(i + 1)];
      i := i + 1;
    }
  }

  /** Different indices give different titles, so the list has no duplicates. */
  lemma TutorialsDistinct(i: nat, j: nat)
    requires Tutorial(i) == Tutorial(j)
    ensures i == j
  {
    TitleNumbersDistinct(Categories[i % |Categories|], i + 1, Categories[j % |Categories|], j + 1);
  }

  /** Titles "<c> Tutorial <m>" agree only when their numbers do. */
  lemma TitleNumbersDistinct(ci: string, m: nat, cj: string, n: nat)
    requires ci + " Tutorial " + NatToString(m) == cj + " Tutorial " + NatToString(n)
    ensures m == n
  {
    assert ci + " Tutorial " + NatToString(m) == (ci + " Tutorial") + " " + NatToString(m);
    assert cj + " Tutorial " + NatToString(n) == (cj + " Tutorial") + " " + NatToString(n);
    NumberedLabelsDistinct(ci + " Tutorial", m, cj + " Tutorial", n);
  }

  /** Every title contains its category, so searching a category name finds its titles. */
  lemma TutorialMatchesCategory(i: nat)
    ensures Search.Matches(Tutorial(i), Categories[i % |Categories|])
  {
    var c := Categories[i % |Categories|];
    var rest := " Tutorial " + NatToString(i + 1);
    assert Tutorial(i) == c + rest;
    LowerAppend(c, rest);
    IncludesInfix([], Lower(c), Lower(rest));
    assert [] + Lower(c) + Lower(rest) == Lower(c) + Lower(rest);
  }

  /** Item i of `generateTabContent(id, count)`: "<id> Item <i + 1>". */
  function TabItem(id: string, i: nat): string {
    id + " Item " + NatToString(i + 1)
  }

  /** `generateTabContent(id, count)` */
  method GenerateTabContent(id: string, count: int) returns (items: seq<string>)
    ensures |items| == if count > 0 then count else 0
    ensures forall i :: 0 <= i < |items| ==> items[i] == TabItem(id, i)
  {
    items := [];
    var i := 0;
    while i < count
      invariant 0 <= i && |items| == i
      invariant i <= if count > 0 then count else 0
      invariant forall k :: 0 <= k < i ==> items[k] == TabItem(id, k)
    {
      items := items + [id + " Item " + NatToString(i + 1)];
      i := i + 1;
    }
  }

  lemma TabItemsDistinct(id: string, i: nat, j: nat)
    requires TabItem(id, i) == TabItem(id, j)
    ensures i == j
  {
    assert TabItem(id, i) == (id + " Item") + " " + NatToString(i + 1);
    assert TabItem(id, j) == (id + " Item") + " " + NatToString(j + 1);
    NumberedLabelsDistinct(id + " Item", i + 1, id + " Item", j + 1);
  }

  datatype Tab = Tab(id: string, title: string, items: seq<string>)

  /** `TABS`: posts, comments and users, each with 1000 generated items. */
  method Tabs() returns (tabs: seq<Tab>)
    ensures |tabs| == 3
    ensures tabs[0].id == "posts" && tabs[1].id == "comments" && tabs[2].id == "users"
    ensures tabs[0].title == "Posts" && tabs[1].title == "Comments" && tabs[2].title == "Users"
    ensures forall t :: 0 <= t < 3 ==> |tabs[t].items| == 1000
    ensures forall i :: 0 <= i < 1000 ==>
      tabs[0].items[i] == TabItem("Post", i) && tabs[1].items[i] == TabItem("Comment", i) && tabs[2].items[i] == TabItem("User", i)
  {
    var posts := GenerateTabContent("Post", 1000);
    var comments := GenerateTabContent("Comment", 1000);
    var users := GenerateTabContent("User", 1000);
    tabs := [Tab("posts", "Posts", posts), Tab("comments", "Comments", comments), Tab("users", "Users", users)];
  }

  datatype Product = Product(id: int, name: string, price: int, rating: int)

  /**
   * `generateProducts(count)`: product i takes two draws of `Math.random()`, one for the price
   * (`floor(r * 1000) + 10`) and one for the rating (`floor(r * 5) + 1`).
   */
  method GenerateProducts(count: int, draws: seq<(Draw, Draw)>) returns (products: seq<Product>)
    requires count <= |draws|
    ensures |products| == if count > 0 then count else 0
    ensures forall i :: 0 <= i < |products| ==>
      products[i] == Product(i, "Product " + NatToString(i + 1), FloorTimes(draws[i].0, 1000) + 10, FloorTimes(draws[i].1, 5) + 1)
    ensures forall i :: 0 <= i < |products| ==> 10 <= products[i].price < 1010 && 1 <= products[i].rating <= 5
  {
    products := [];
    var i := 0;
    while i < count
      invariant 0 <= i && |products| == i
      invariant i <= if count > 0 then count else 0
      invariant forall k :: 0 <= k < i ==>
        products[k] == Product(k, "Product " + NatToString(k + 1), FloorTimes(draws[k].0, 1000) + 10, FloorTimes(draws[k].1, 5) + 1)
    {
      var price := FloorTimes(draws[i].0, 1000) + 10;
      var rating := FloorTimes(draws[i].1, 5) + 1;
      products := products + [Product(i, "Product " + NatToString(i + 1), price, rating)];
      i := i + 1;
    }
  }

  /** The numeric sort keys of the sort buttons; the "name" sort uses `localeCompare`. */
  datatype NumericSort = ByPrice | ByRating

  /** `[...PRODUCTS].sort(...)` for "price" (`a.price - b.price`) and "rating" (`b.rating - a.rating`). */
  function SortProducts(products: seq<Product>, order: NumericSort): (r: seq<Product>)
    ensures multiset(r) == multiset(products)
    ensures order == ByPrice ==> forall i, j :: 0 <= i < j < |r| ==> r[i].price <= r[j].price
    ensures order == ByRating ==> forall i, j :: 0 <= i < j < |r| ==> r[i].rating >= r[j].rating
  {
    match order
    case ByPrice => SortBy(products, (p: Product) => p.price)
    case ByRating =>
      SortByNegatedIsDescending(products, (p: Product) => p.rating);
      SortBy(products, (p: Product) => -p.rating)
  }
}
