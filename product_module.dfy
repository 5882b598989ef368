/**
 * The product module of the TypeScript refresher's export demo: the category list,
 * `createProduct` and `isExpensive`. Prices are kept in whole cents.
 */
module ProductModule {
  import JsRandom

  /** `PRODUCT_CATEGORIES` */
  const ProductCategories: seq<string> := ["Electronics", "Clothing", "Food", "Books", "Home"]

  /** `(typeof PRODUCT_CATEGORIES)[number]`: one of the listed names. */
  type ProductCategory = c: string | c in ProductCategories witness "Electronics"

  datatype Product = Product(id: int, title: string, priceCents: int, category: string, inStock: bool)

  /** `createProduct(title, price, category)`, with `Math.random()` as the draw. */
  function CreateProduct(title: string, priceCents: int, category: ProductCategory, draw: JsRandom.Draw): (p: Product)
    ensures p.title == title && p.priceCents == priceCents && p.category == category
    ensures p.inStock
    ensures 0 <= p.id < 10000
    ensures p.category in ProductCategories
  {
    Product(JsRandom.FloorTimes(draw, 10000), title, priceCents, category, true)
  }

  /** `isExpensive(product)`: dearer than 100 dollars, that is 100 dollars and some cents or more. */
  function IsExpensive(product: Product): (r: bool)
    ensures r <==> var dollars, cents := product.priceCents / 100, product.priceCents % 100;
      dollars > 100 || (dollars == 100 && cents > 0)
  {
    product.priceCents > 10000
  }

  /** The list names five categories, none twice. */
  lemma CategoriesDistinct()
    ensures |ProductCategories| == 5
    ensures forall i, j :: 0 <= i < j < |ProductCategories| ==> ProductCategories[i] != ProductCategories[j]
  {
  }

  /** The demo's laptop at 2499 dollars is expensive; the handbook at 45 is not. */
  lemma DemoProducts(draw: JsRandom.Draw)
    ensures IsExpensive(CreateProduct("MacBook Pro", 249900, "Electronics", draw))
    ensures !IsExpensive(CreateProduct("TypeScript Handbook", 4500, "Books", draw))
  {
  }
}
