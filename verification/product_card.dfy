/** The product card in the grid
    (src/components/products/ProductCard/ProductCard.jsx): the defaults it
    fills in, the image carousel, the badges and stars, and its
    add-to-cart button. */
module ProductCard {
  import opened Common
  import opened Products
  import opened CartContext

  // ---------------------------------------------------------------------
  // Defaults

  /** `product.discount || 0` */
  function CardDiscount(p: Product): (r: int)
    ensures p.discount.Some? ==> r == p.discount.value
    ensures p.discount.None? ==> r == 0
  {
    p.discount.GetOr(0)
  }

  /** `isOnSale`: a positive discount. */
  function CardOnSale(p: Product): (b: bool)
    ensures b <==> p.discount.Some? && p.discount.value > 0
  {
    CardDiscount(p) > 0
  }

  /** `product.rating || 4.5`: a missing or zero rating shows as 4.5. */
  function CardRating(p: Product): (r: real)
    ensures p.rating.Some? && p.rating.value != 0.0 ==> r == p.rating.value
    ensures p.rating.None? || p.rating.value == 0.0 ==> r == 4.5
  {
    match p.rating
    case None => 4.5
    case Some(v) => if v == 0.0 then 4.5 else v
  }

  /** `product.stock || 10` as written: a missing stock and a stock of 0
      both show as 10. */
  function CardStock(p: Product): (s: int)
    ensures p.stock.Some? && p.stock.value != 0 ==> s == p.stock.value
    ensures p.stock.None? || p.stock.value == 0 ==> s == 10
    ensures s != 0
  {
    match p.stock
    case None => 10
    case Some(n) => if n == 0 then 10 else n
  }

  /** The add button's `stock === 0` test: as written it never disables the
      button, not even for a product that is sold out. */
  function AddDisabled(p: Product): (b: bool)
    ensures !b
  {
    CardStock(p) == 0
  }

  lemma SoldOutStillEnabled(p: Product)
    requires p.stock == Some(0)
    ensures !AddDisabled(p) && CardStock(p) == 10
  {
  }

  /** On the shipped catalog product 11 is sold out, yet its card offers
      the add button and shows no "only a few left" warning. */
  lemma SoldOutOnCatalog()
    ensures Catalog[10].stock == Some(0) && !AddDisabled(Catalog[10]) && !LowStockBadge(Catalog[10])
  {
    CatalogShape();
  }

  /** The evidently intended default, `product.stock ?? 10`: only a missing
      stock defaults. */
  function CardStockIntended(p: Product): (s: int)
    ensures p.stock.Some? ==> s == p.stock.value
    ensures p.stock.None? ==> s == 10
  {
    p.stock.GetOr(10)
  }

  predicate AddDisabledIntended(p: Product) {
    CardStockIntended(p) == 0
  }

  /** With it the button is disabled exactly for sold-out products, which
      includes product 11 of the catalog. */
  lemma IntendedDisablesSoldOut(p: Product)
    ensures AddDisabledIntended(p) <==> p.stock == Some(0)
    ensures AddDisabledIntended(Catalog[10])
  {
    CatalogShape();
  }

  /** The "only N left" badge: a shown stock of 1 to 5. */
  function LowStockBadge(p: Product): (b: bool)
    ensures b <==> p.stock.Some? && 0 < p.stock.value <= 5
  {
    CardStock(p) <= 5 && CardStock(p) > 0
  }

  lemma LowStockBadgeIff(p: Product)
    ensures LowStockBadge(p) <==> p.stock.Some? && 0 < p.stock.value <= 5
  {
  }

  // ---------------------------------------------------------------------
  // Image carousel

  /** `handleImageChange`: with more than one image, the next index, wrapping
      from the last to the first; otherwise no change. */
  function NextImage(index: int, count: int): (r: int)
    ensures count > 1 && 0 <= index < count ==> 0 <= r < count
    ensures count <= 1 ==> r == index
  {
    if count > 1 then (if index == count - 1 then 0 else index + 1) else index
  }

  /** The index after `k` clicks. */
  function Clicks(index: int, count: int, k: nat): int {
    if k == 0 then index else NextImage(Clicks(index, count, k - 1), count)
  }

  /** Clicking walks the images in a cycle: after `k` clicks the index is
      `(index + k) mod count`, so `count` clicks come back to the start. */
  lemma {:induction false} ClicksCycle(index: int, count: int, k: nat)
    requires count > 1 && 0 <= index < count
    ensures Clicks(index, count, k) == (index + k) % count
    ensures Clicks(index, count, count) == index
  {
    ClicksMod(index, count, k);
    ClicksMod(index, count, count);
    ModWrap(index, count);
  }

  lemma {:induction false} ClicksMod(index: int, count: int, k: nat)
    requires count > 1 && 0 <= index < count
    ensures Clicks(index, count, k) == (index + k) % count
  {
    if k > 0 {
      ClicksMod(index, count, k - 1);
      var a := index + k - 1;
      ModStep(a, count);
      assert Clicks(index, count, k) == NextImage(a % count, count);
      assert index + k == a + 1;
    }
  }

  /** A full turn of a counter modulo `c` comes back to the start. */
  lemma ModWrap(a: int, c: int)
    requires 0 <= a < c
    ensures (a + c) % c == a
  {
    var q, r := (a + c) / c, (a + c) % c;
    assert a + c == q * c + r;
    assert 0 <= r < c;
    var d := q - 1;
    assert d * c == a - r by {
      assert q * c - c == a - r;
    }
    assert d == 0;
  }

  /** One more step on a counter modulo `c`. */
  lemma ModStep(a: int, c: int)
    requires c > 1 && a >= 0
    ensures (a + 1) % c == if a % c == c - 1 then 0 else a % c + 1
  {
    var q, r := a / c, a % c;
    assert a == q * c + r;
    var q', r' := (a + 1) / c, (a + 1) % c;
    assert a + 1 == q' * c + r';
    var target := if r == c - 1 then 0 else r + 1;
    var qt := if r == c - 1 then q + 1 else q;
    assert a + 1 == qt * c + target;
    assert 0 <= target < c;
    var d := qt - q';
    assert d * c == r' - target by {
      assert qt * c - q' * c == r' - target;
    }
    assert d == 0;
  }

  // ---------------------------------------------------------------------
  // Stars and the add button

  /** The five stars; star `i` is filled when `i < floor(rating)`. */
  function Stars(rating: real): (s: seq<bool>)
    ensures |s| == 5
    ensures forall i | 0 <= i < 5 :: s[i] <==> i < rating.Floor
  {
    seq(5, i requires 0 <= i < 5 => i < rating.Floor)
  }

  function CountTrue(s: seq<bool>): nat {
    if |s| == 0 then 0 else (if s[0] then 1 else 0) + CountTrue(s[1..])
  }

  /** The number of filled stars is `floor(rating)` clamped to 0..5. */
  lemma FilledStars(rating: real)
    ensures CountTrue(Stars(rating)) == if rating.Floor < 0 then 0 else if rating.Floor > 5 then 5 else rating.Floor
  {
    var s := Stars(rating);
    assert CountTrue(s) == (if s[0] then 1 else 0) + CountTrue(s[1..]);
    assert CountTrue(s[1..]) == (if s[1] then 1 else 0) + CountTrue(s[2..]) by {
      assert s[1..][1..] == s[2..];
    }
    assert CountTrue(s[2..]) == (if s[2] then 1 else 0) + CountTrue(s[3..]) by {
      assert s[2..][1..] == s[3..];
    }
    assert CountTrue(s[3..]) == (if s[3] then 1 else 0) + CountTrue(s[4..]) by {
      assert s[3..][1..] == s[4..];
    }
    assert CountTrue(s[4..]) == (if s[4] then 1 else 0) + CountTrue(s[5..]) by {
      assert s[4..][1..] == s[5..];
    }
    assert s[5..] == [];
  }

  /** A card's rating of 4.7 fills four stars; a missing rating (4.5) too. */
  lemma StarsExamples(p: Product)
    requires p.rating.None?
    ensures CountTrue(Stars(4.7)) == 4
    ensures CountTrue(Stars(CardRating(p))) == 4
  {
    FilledStars(4.7);
    FilledStars(4.5);
  }

  /** `handleAddToCart`: the product record itself goes to `addToCart`, with
      no size and the default quantity 1. */
  function CardAdd(cart: Cart, p: Product): (r: Cart)
    ensures HasId(r, p.id)
    ensures !HasId(cart, p.id) ==> r == cart + [Line(p, None, 1)]
  {
    Add(cart, Offer(p, None, None), 1)
  }

  /** Each click on a card adds exactly one unit. */
  lemma CardAddOneUnit(cart: Cart, p: Product)
    requires UniqueIds(cart)
    ensures UnitsOf(CardAdd(cart, p), p.id) == UnitsOf(cart, p.id) + 1
    ensures UniqueIds(CardAdd(cart, p))
  {
    AddUnits(cart, Offer(p, None, None), 1);
    AddKeepsUnique(cart, Offer(p, None, None), 1);
  }
}
