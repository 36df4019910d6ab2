/** The product detail page (src/pages/Product/Product.jsx): the lookup by
    the route's id, related products, the stock band, the quantity picker,
    the size guard and the add-to-cart call. */
module ProductPage {
  import opened Common
  import opened Text
  import opened Products
  import opened CartContext
  import ProductCard

  // ---------------------------------------------------------------------
  // Lookup and related products

  /** The first product with the given id, as `products.find` returns it. */
  function FindById(catalog: seq<Product>, id: int): (r: Option<Product>)
    ensures r.Some? ==> r.value in catalog && r.value.id == id
    ensures r.None? <==> forall p | p in catalog :: p.id != id
    ensures r.Some? ==> exists i | 0 <= i < |catalog| ::
      catalog[i] == r.value && forall j | 0 <= j < i :: catalog[j].id != id
  {
    if |catalog| == 0 then None
    else if catalog[0].id == id then Some(catalog[0])
    else
      var r := FindById(catalog[1..], id);
      assert forall p | p in catalog :: p == catalog[0] || p in catalog[1..];
      assert r.Some? ==> exists i | 1 <= i < |catalog| ::
        catalog[i] == r.value && forall j | 0 <= j < i :: catalog[j].id != id by {
        if r.Some? {
          var k :| 0 <= k < |catalog[1..]| && catalog[1..][k] == r.value &&
            forall j | 0 <= j < k :: catalog[1..][j].id != id;
          assert catalog[k + 1] == r.value;
          assert forall j | 0 <= j < k + 1 :: catalog[j].id != id by {
            forall j | 0 <= j < k + 1 ensures catalog[j].id != id {
              if j > 0 { assert catalog[j] == catalog[1..][j - 1]; }
            }
          }
        }
      }
      r
  }

  /** When the ids are distinct, the product found is the one carrying the
      id. */
  lemma {:induction false} FindByIdUnique(catalog: seq<Product>, i: int)
    requires 0 <= i < |catalog|
    requires forall j, k | 0 <= j < k < |catalog| :: catalog[j].id != catalog[k].id
    ensures FindById(catalog, catalog[i].id) == Some(catalog[i])
  {
    if i > 0 {
      assert catalog[0].id != catalog[i].id;
      var rest := catalog[1..];
      assert rest[i - 1] == catalog[i];
      FindByIdUnique(rest, i - 1);
    }
  }

  /** The page's product for the route parameter: `parseInt` of the text,
      then the first product with that id; `NaN` finds nothing. */
  function Lookup(catalog: seq<Product>, param: string): (r: Option<Product>)
    ensures r.Some? ==> r.value in catalog && Some(r.value.id) == ParseInt(param)
    ensures ParseInt(param).None? ==> r.None?
  {
    match ParseInt(param)
    case None => None
    case Some(n) => FindById(catalog, n)
  }

  /** A link built from a product's id leads back to that product. */
  lemma LinkRoundTrip(catalog: seq<Product>, i: int)
    requires 0 <= i < |catalog| && catalog[i].id >= 0
    requires forall j, k | 0 <= j < k < |catalog| :: catalog[j].id != catalog[k].id
    ensures Lookup(catalog, Decimal(catalog[i].id)) == Some(catalog[i])
  {
    ParseDecimal(catalog[i].id);
    FindByIdUnique(catalog, i);
  }

  /** Every shipped product is reachable from its link. */
  lemma CatalogLinks(i: int)
    requires 0 <= i < |Catalog|
    ensures Lookup(Catalog, Decimal(Catalog[i].id)) == Some(Catalog[i])
  {
    CatalogShape();
    LinkRoundTrip(Catalog, i);
  }

  /** Another product of the same category. */
  predicate IsRelated(product: Product, q: Product) {
    q.category == product.category && q.id != product.id
  }

  /** `relatedProducts`: at most four other products of the same category,
      in catalog order. */
  function Related(catalog: seq<Product>, product: Product): (r: seq<Product>)
    ensures |r| <= 4
    ensures forall q | q in r :: q in catalog && q.category == product.category && q.id != product.id
    ensures r <= Filter(catalog, q => IsRelated(product, q))
    ensures var n := |Filter(catalog, q => IsRelated(product, q))|; |r| == if n < 4 then n else 4
  {
    Take(Filter(catalog, q => IsRelated(product, q)), 4)
  }

  /** With at most four candidates, all of them are shown. */
  lemma RelatedAll(catalog: seq<Product>, product: Product)
    requires |Filter(catalog, q => IsRelated(product, q))| <= 4
    ensures forall q | q in catalog && q.category == product.category && q.id != product.id ::
      q in Related(catalog, product)
  {
  }

  // ---------------------------------------------------------------------
  // Stock, price and quantity

  datatype StockStatus = InStock | LowStock | OutOfStock

  /** `stockStatus`: more than 10 in stock, 1 to 10, or none (a missing
      stock compares false both times). */
  function Status(stock: Option<int>): (s: StockStatus)
    ensures s == InStock <==> stock.Some? && stock.value > 10
    ensures s == LowStock <==> stock.Some? && 0 < stock.value <= 10
    ensures s == OutOfStock <==> stock.None? || stock.value <= 0
  {
    match stock
    case None => OutOfStock
    case Some(n) => if n > 10 then InStock else if n > 0 then LowStock else OutOfStock
  }

  /** `product.stock || 10`: a missing or zero stock caps at 10. */
  function QuantityCap(stock: Option<int>): (c: int)
    ensures stock.Some? && stock.value != 0 ==> c == stock.value
    ensures stock.None? || stock.value == 0 ==> c == 10
  {
    match stock
    case None => 10
    case Some(n) => if n == 0 then 10 else n
  }

  /** `handleQuantityChange`: the step is taken only when the result stays
      within [1, cap]. */
  function ChangeQuantity(quantity: int, change: int, stock: Option<int>): (r: int)
    ensures 1 <= quantity + change <= QuantityCap(stock) ==> r == quantity + change
    ensures !(1 <= quantity + change <= QuantityCap(stock)) ==> r == quantity
  {
    var q := quantity + change;
    if q >= 1 && q <= QuantityCap(stock) then q else quantity
  }

  /** The quantity after a run of +/- clicks. */
  function ApplyChanges(quantity: int, changes: seq<int>, stock: Option<int>): int
    decreases |changes|
  {
    if |changes| == 0 then quantity
    else ApplyChanges(ChangeQuantity(quantity, changes[0], stock), changes[1..], stock)
  }

  /** The picker never leaves [1, cap] once inside, whatever the clicks. */
  lemma {:induction false} QuantityStaysInRange(quantity: int, changes: seq<int>, stock: Option<int>)
    requires 1 <= quantity <= QuantityCap(stock)
    ensures 1 <= ApplyChanges(quantity, changes, stock) <= QuantityCap(stock)
    decreases |changes|
  {
    if |changes| > 0 {
      QuantityStaysInRange(ChangeQuantity(quantity, changes[0], stock), changes[1..], stock);
    }
  }

  /** `product.discount || 0`, the same default the product card applies. */
  function DiscountOf(p: Product): (r: int)
    ensures p.discount.Some? ==> r == p.discount.value
    ensures p.discount.None? ==> r == 0
  {
    ProductCard.CardDiscount(p)
  }

  /** The price shown: the list price less the discount percentage. */
  function ShownPrice(p: Product): (r: real)
    ensures DiscountOf(p) == 0 ==> r == p.price
    ensures 0 <= DiscountOf(p) <= 100 && p.price >= 0.0 ==> 0.0 <= r <= p.price
    ensures p.price > 0.0 ==> (r < p.price <==> DiscountOf(p) > 0)
  {
    p.price * (1.0 - DiscountOf(p) as real / 100.0)
  }

  /** On the shipped catalog: product 3 (230, 10% off) shows 207, product 7
      (140, 20% off) 112, and product 1 its list price. */
  lemma ShownPriceExamples()
    ensures ShownPrice(Catalog[2]) == 207.0
    ensures ShownPrice(Catalog[6]) == 112.0
    ensures ShownPrice(Catalog[0]) == 180.0
  {
  }

  // ---------------------------------------------------------------------
  // Page state and actions

  /** The page's choices: the image shown, the size picked and the quantity. */
  datatype Choice = Choice(image: Option<string>, size: Option<real>, quantity: int)

  /** The reset when a product is shown: its first image, no size, one unit. */
  function Reset(p: Product): (c: Choice)
    ensures c.size.None? && c.quantity == 1
    ensures |p.images| > 0 ==> c.image == Some(p.images[0])
  {
    Choice(if |p.images| > 0 then Some(p.images[0]) else None, None, 1)
  }

  /** `!selectedSize`: nothing picked, or the falsy size 0. */
  predicate NoSize(size: Option<real>) {
    size.None? || size.value == 0.0
  }

  /** The size guard shared by add-to-cart and the WhatsApp button: refused
      when the product has sizes and none is picked. */
  function SizeMissing(p: Product, c: Choice): (b: bool)
    ensures |p.sizes| == 0 ==> !b
    ensures c.size.Some? && c.size.value != 0.0 ==> !b
    ensures |p.sizes| > 0 && c.size.None? ==> b
  {
    NoSize(c.size) && |p.sizes| > 0
  }

  datatype AddOutcome = Added(cart: Cart) | NeedSize | Disabled

  /** `handleAddToCart` as written: after the guards, the product goes to
      `addToCart` with the size and quantity inside the record but with the
      call's own quantity left at its default of 1. Both buttons are
      disabled while the product is out of stock. */
  function AddFromPage(cart: Cart, p: Product, c: Choice): (r: AddOutcome)
    ensures r.Disabled? <==> Status(p.stock) == OutOfStock
    ensures r.NeedSize? <==> Status(p.stock) != OutOfStock && SizeMissing(p, c)
    ensures r.Added? ==> r.cart == Add(cart, Offer(p, c.size, Some(c.quantity)), 1)
  {
    if Status(p.stock) == OutOfStock then Disabled
    else if SizeMissing(p, c) then NeedSize
    else Added(Add(cart, Offer(p, c.size, Some(c.quantity)), 1))
  }

  /** The chosen quantity is lost: whatever was picked, the product's units
      in the cart go up by exactly one. */
  lemma {:induction false} AddFromPageLosesQuantity(cart: Cart, p: Product, c: Choice)
    requires UniqueIds(cart)
    requires AddFromPage(cart, p, c).Added?
    ensures UnitsOf(AddFromPage(cart, p, c).cart, p.id) == UnitsOf(cart, p.id) + 1
  {
    AddUnits(cart, Offer(p, c.size, Some(c.quantity)), 1);
  }

  /** Concretely: three units of product 1 in size 9 on an empty cart give one
      line with quantity 1. */
  lemma AddThreeGivesOne()
    ensures var c := Choice(None, Some(9.0), 3);
      AddFromPage([], Catalog[0], c) == Added([Line(Catalog[0], Some(9.0), 1)])
  {
  }

  /** The call the page evidently means: the chosen quantity passed as the
      quantity argument. */
  function AddFromPageIntended(cart: Cart, p: Product, c: Choice): (r: AddOutcome)
    ensures r.Disabled? <==> Status(p.stock) == OutOfStock
    ensures r.NeedSize? <==> Status(p.stock) != OutOfStock && SizeMissing(p, c)
    ensures r.Added? ==> r.cart == Add(cart, Offer(p, c.size, Some(c.quantity)), c.quantity)
  {
    if Status(p.stock) == OutOfStock then Disabled
    else if SizeMissing(p, c) then NeedSize
    else Added(Add(cart, Offer(p, c.size, Some(c.quantity)), c.quantity))
  }

  /** With the intended call the product's units go up by the chosen
      quantity. */
  lemma {:induction false} AddFromPageIntendedKeepsQuantity(cart: Cart, p: Product, c: Choice)
    requires UniqueIds(cart)
    requires AddFromPageIntended(cart, p, c).Added?
    ensures UnitsOf(AddFromPageIntended(cart, p, c).cart, p.id) == UnitsOf(cart, p.id) + c.quantity
  {
    AddUnits(cart, Offer(p, c.size, Some(c.quantity)), c.quantity);
  }

  /** The WhatsApp button: the same guards; when they pass the message names
      the product, the size and the quantity. */
  datatype Inquiry = Inquiry(name: string, size: Option<real>, quantity: int, unitPrice: real)

  function WhatsApp(p: Product, c: Choice): (r: Option<Inquiry>)
    ensures r.Some? <==> Status(p.stock) != OutOfStock && !SizeMissing(p, c)
    ensures r.Some? ==> r.value == Inquiry(p.name, c.size, c.quantity, p.price)
  {
    if Status(p.stock) == OutOfStock || SizeMissing(p, c) then None
    else Some(Inquiry(p.name, c.size, c.quantity, p.price))
  }

  /** Add-to-cart and WhatsApp are refused for exactly the same choices. */
  lemma SameGuards(cart: Cart, p: Product, c: Choice)
    ensures AddFromPage(cart, p, c).Added? <==> WhatsApp(p, c).Some?
  {
  }
}
