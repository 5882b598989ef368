/**
 * The e-commerce live example of the TypeScript refresher: a fixed product catalogue, a global
 * shopping cart that `addToCart` changes in place, and two catalogue queries.
 */
module ShoppingCart {
  import opened Wrappers
  import Seqs

  /** A catalogue product; prices are kept in cents. The optional rating is not read by the modelled code. */
  datatype Product = Product(id: int, title: string, priceCents: int, category: string, inStock: bool)

  datatype CartItem = CartItem(product: Product, quantity: int)

  const Catalogue: seq<Product> := [
    Product(1, "Wireless Mouse", 2999, "Electronics", true),
    Product(2, "Mechanical Keyboard", 8999, "Electronics", true),
    Product(3, "USB-C Cable", 1299, "Accessories", false),
    Product(4, "Laptop Stand", 4500, "Accessories", true)
  ]

  /** `products.find(p => p.id === productId)`: the first product with that id. */
  function FindProduct(products: seq<Product>, productId: int): (r: Option<Product>)
    ensures r.None? <==> forall i :: 0 <= i < |products| ==> products[i].id != productId
    ensures r.Some? ==> r.value in products && r.value.id == productId
  {
    if products == [] then None
    else if products[0].id == productId then Some(products[0])
    else FindProduct(products[1..], productId)
  }

  /** The index `shoppingCart.find(item => item.product.id === productId)` lands on. */
  function ItemIndex(items: seq<CartItem>, productId: int): (r: Option<nat>)
    ensures r.None? <==> forall i :: 0 <= i < |items| ==> items[i].product.id != productId
    ensures r.Some? ==> (r.value < |items| && items[r.value].product.id == productId &&
      forall i :: 0 <= i < r.value ==> items[i].product.id != productId)
  {
    if items == [] then None
    else if items[0].product.id == productId then Some(0)
    else
      var rest := ItemIndex(items[1..], productId);
      if rest.None? then None else Some(rest.value + 1)
  }

  /** The cart after `addToCart(productId, quantity)`, as a function of the cart before. */
  function Added(items: seq<CartItem>, productId: int, quantity: int): seq<CartItem> {
    AddedFound(items, FindProduct(Catalogue, productId), productId, quantity)
  }

  /** The same step, given what the catalogue lookup found. */
  function AddedFound(items: seq<CartItem>, product: Option<Product>, productId: int, quantity: int): seq<CartItem> {
    if product.None? || !product.value.inStock then items
    else
      var j := ItemIndex(items, productId);
      if j.Some? then items[j.value := CartItem(items[j.value].product, items[j.value].quantity + quantity)]
      else items + [CartItem(product.value, quantity)]
  }

  /** At most one entry per product id, and every entry holds an in-stock catalogue product. */
  predicate CartInvariant(items: seq<CartItem>) {
    (forall i, j :: 0 <= i < j < |items| ==> items[i].product.id != items[j].product.id) &&
    (forall i :: 0 <= i < |items| ==> items[i].product in Catalogue && items[i].product.inStock)
  }

  /** Adding keeps the invariant. */
  lemma AddedKeepsInvariant(items: seq<CartItem>, productId: int, quantity: int)
    requires CartInvariant(items)
    ensures CartInvariant(Added(items, productId, quantity))
  {
  }

  /** An unknown id or an out-of-stock product leaves the cart as it was. */
  lemma RejectedLeavesCart(items: seq<CartItem>, productId: int, quantity: int)
    requires FindProduct(Catalogue, productId).None? || !FindProduct(Catalogue, productId).value.inStock
    ensures Added(items, productId, quantity) == items
  {
  }

  /** A product already in the cart only grows its quantity; nothing is added or reordered. */
  lemma ExistingGrows(items: seq<CartItem>, productId: int, quantity: int, j: int)
    requires FindProduct(Catalogue, productId).Some? && FindProduct(Catalogue, productId).value.inStock
    requires 0 <= j < |items| && items[j].product.id == productId
    requires CartInvariant(items)
    ensures |Added(items, productId, quantity)| == |items|
    ensures Added(items, productId, quantity)[j].quantity == items[j].quantity + quantity
    ensures forall i :: 0 <= i < |items| && i != j ==> Added(items, productId, quantity)[i] == items[i]
  {
  }

  /** The cart as the global `shoppingCart` array. */
  class Cart {
    var items: seq<CartItem>

    predicate Valid()
      reads this
    {
      CartInvariant(items)
    }

    /** `let shoppingCart: CartItem[] = []` */
    constructor()
      ensures items == [] && Valid()
    {
      items := [];
    }

    /** `addToCart`: update the existing entry in place, or push a new one. */
    method AddToCart(productId: int, quantity: int)
      requires Valid()
      modifies this
      ensures Valid()
      ensures items == Added(old(items), productId, quantity)
    {
      AddedKeepsInvariant(items, productId, quantity);
      var product := FindProduct(Catalogue, productId);
      if product.None? || !product.value.inStock {
        return;
      }
      var existing := ItemIndex(items, productId);
      if existing.Some? {
        var j := existing.value;
        items := items[j := CartItem(items[j].product, items[j].quantity + quantity)];
      } else {
        items := items + [CartItem(product.value, quantity)];
      }
      assert items == AddedFound(old(items), product, productId, quantity);
    }
  }

  /**
   * The four shopping actions of the example: two mice, one keyboard, the out-of-stock cable,
   * and one more mouse, which ends with the mouse at quantity 3 and no cable.
   */
  method ShoppingActions() returns (cart: Cart)
    ensures cart.items == [CartItem(Catalogue[0], 3), CartItem(Catalogue[1], 1)]
  {
    cart := new Cart();
    cart.AddToCart(1, 2);
    FirstMouse(cart.items);
    cart.AddToCart(2, 1);
    ThenKeyboard(cart.items);
    cart.AddToCart(3, 1);
    CableRejected(cart.items);
    cart.AddToCart(1, 1);
    MouseAgain(cart.items);
  }

  lemma FirstMouse(items: seq<CartItem>)
    requires items == Added([], 1, 2)
    ensures items == [CartItem(Catalogue[0], 2)]
  {
    assert FindProduct(Catalogue, 1) == Some(Catalogue[0]);
  }

  lemma ThenKeyboard(items: seq<CartItem>)
    requires items == Added([CartItem(Catalogue[0], 2)], 2, 1)
    ensures items == [CartItem(Catalogue[0], 2), CartItem(Catalogue[1], 1)]
  {
    assert FindProduct(Catalogue, 2) == Some(Catalogue[1]);
    assert ItemIndex([CartItem(Catalogue[0], 2)], 2).None?;
  }

  lemma CableRejected(items: seq<CartItem>)
    requires items == Added([CartItem(Catalogue[0], 2), CartItem(Catalogue[1], 1)], 3, 1)
    ensures items == [CartItem(Catalogue[0], 2), CartItem(Catalogue[1], 1)]
  {
    assert FindProduct(Catalogue, 3) == Some(Catalogue[2]);
  }

  lemma MouseAgain(items: seq<CartItem>)
    requires items == Added([CartItem(Catalogue[0], 2), CartItem(Catalogue[1], 1)], 1, 1)
    ensures items == [CartItem(Catalogue[0], 3), CartItem(Catalogue[1], 1)]
  {
    assert FindProduct(Catalogue, 1) == Some(Catalogue[0]);
    assert ItemIndex([CartItem(Catalogue[0], 2), CartItem(Catalogue[1], 1)], 1) == Some(0);
  }

  /** `getProductsByCategory(category)` */
  function ProductsByCategory(category: string): (r: seq<Product>)
    ensures Seqs.IsSubsequence(r, Catalogue)
    ensures forall p :: p in r <==> p in Catalogue && p.category == category
  {
    Seqs.FilterIsSubsequence(Catalogue, (q: Product) => q.category == category);
    forall p ensures p in Seqs.Filter(Catalogue, (q: Product) => q.category == category) <==> p in Catalogue && p.category == category {
      Seqs.FilterMembers(Catalogue, (q: Product) => q.category == category, p);
    }
    Seqs.Filter(Catalogue, (q: Product) => q.category == category)
  }

  /** `getAvailableProducts()` */
  function AvailableProducts(): (r: seq<Product>)
    ensures Seqs.IsSubsequence(r, Catalogue)
    ensures forall p :: p in r <==> p in Catalogue && p.inStock
  {
    Seqs.FilterIsSubsequence(Catalogue, (q: Product) => q.inStock);
    forall p ensures p in Seqs.Filter(Catalogue, (q: Product) => q.inStock) <==> p in Catalogue && p.inStock {
      Seqs.FilterMembers(Catalogue, (q: Product) => q.inStock, p);
    }
    Seqs.Filter(Catalogue, (q: Product) => q.inStock)
  }

  /** The example's queries: the electronics are products 1 and 2; products 1, 2 and 4 are available. */
  lemma CatalogueQueries()
    ensures ProductsByCategory("Electronics") == [Catalogue[0], Catalogue[1]]
    ensures AvailableProducts() == [Catalogue[0], Catalogue[1], Catalogue[3]]
  {
  }
}
