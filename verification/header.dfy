/** The site header (src/components/shared/Header/Header.jsx): the unit
    count and price shown beside the cart icon, and the active navigation
    link. */
module Header {
  import opened CartContext

  /** `totalItems`: the quantities of all lines added up, left to right. */
  function TotalItems(cart: Cart): (r: int)
    ensures (forall i | 0 <= i < |cart| :: cart[i].quantity >= 1) ==> r >= |cart|
    ensures (forall i | 0 <= i < |cart| :: cart[i].quantity >= 0) ==> r >= 0
  {
    if |cart| == 0 then 0 else TotalItems(cart[..|cart| - 1]) + cart[|cart| - 1].quantity
  }

  /** `totalPrice`, written here as a sum taken from the first line on; the
      header's own reduce runs the other way. */
  function TotalPrice(cart: Cart): (r: real)
    ensures |cart| == 0 ==> r == 0.0
    ensures |cart| == 1 ==> r == Amount(cart[0])
  {
    if |cart| == 0 then 0.0 else Amount(cart[0]) + TotalPrice(cart[1..])
  }

  /** The header's price is the context's `getCartTotal`: the same sum of
      price times quantity over the lines. */
  lemma {:induction false} TotalPriceIsCartTotal(cart: Cart)
    ensures TotalPrice(cart) == Total(cart)
  {
    if |cart| > 0 {
      TotalPriceIsCartTotal(cart[1..]);
      assert cart == [cart[0]] + cart[1..];
      TotalAppend([cart[0]], cart[1..]);
      assert [cart[0]][..0] == [];
    }
  }

  lemma {:induction false} TotalItemsAppend(a: Cart, b: Cart)
    ensures TotalItems(a + b) == TotalItems(a) + TotalItems(b)
  {
    if |b| > 0 {
      assert (a + b)[..|a + b| - 1] == a + b[..|b| - 1];
      TotalItemsAppend(a, b[..|b| - 1]);
    } else {
      assert a + b == a;
    }
  }

  /** Bumping the lines of one id changes the unit count only through that
      id's units. */
  lemma {:induction false} BumpItems(cart: Cart, r: Cart, id: int, q: int)
    requires Bumped(cart, r, id, q)
    ensures TotalItems(r) - UnitsOf(r, id) == TotalItems(cart) - UnitsOf(cart, id)
  {
    if |cart| > 0 {
      BumpedPrefix(cart, r, id, q);
      BumpItems(cart[..|cart| - 1], r[..|r| - 1], id, q);
    }
  }

  /** With one line per id, every `addToCart` of `q` units raises the header
      count by exactly `q`, whether it appends a line or bumps one. */
  lemma TotalItemsAdd(cart: Cart, offer: Offer, q: int)
    requires UniqueIds(cart)
    ensures TotalItems(Add(cart, offer, q)) == TotalItems(cart) + q
  {
    var id := offer.product.id;
    AddUnits(cart, offer, q);
    if HasId(cart, id) {
      BumpItems(cart, Add(cart, offer, q), id, q);
    } else {
      TotalItemsAppend(cart, [Line(offer.product, offer.size, q)]);
      assert [Line(offer.product, offer.size, q)][..0] == [];
    }
  }

  /** The badge with the count and the price beside the icon appear only
      for a positive unit count. */
  function ShowsBadge(cart: Cart): (b: bool)
    ensures |cart| == 0 ==> !b
    ensures (forall i | 0 <= i < |cart| :: cart[i].quantity >= 1) ==> (b <==> |cart| > 0)
  {
    TotalItems(cart) > 0
  }

  /** When every line holds at least one unit the header counts at least one
      per line, so the badge shows exactly for a non-empty cart; the drawer's
      line count can only be lower. */
  lemma {:induction false} BadgeIffNonEmpty(cart: Cart)
    requires forall i | 0 <= i < |cart| :: cart[i].quantity >= 1
    ensures TotalItems(cart) >= |cart|
    ensures ShowsBadge(cart) <==> |cart| > 0
  {
    if |cart| > 0 {
      BadgeIffNonEmpty(cart[..|cart| - 1]);
    }
  }

  /** After `clearCart` the header shows neither badge nor price. */
  lemma ClearedHeader()
    ensures TotalItems(Clear()) == 0 && !ShowsBadge(Clear()) && TotalPrice(Clear()) == 0.0
  {
  }

  /** `isActive(path)`: the current location is exactly the link's path. */
  function IsActive(pathname: string, path: string): (b: bool)
    ensures b <==> |pathname| == |path| && forall i | 0 <= i < |path| :: pathname[i] == path[i]
  {
    pathname == path
  }

  /** The two highlighted links, home and catalog: at most one is active,
      and a sub-path such as `/catalogo/1` activates neither. */
  lemma ActiveLinks(pathname: string)
    ensures !(IsActive(pathname, "/") && IsActive(pathname, "/catalogo"))
    ensures IsActive(pathname, "/") <==> pathname == "/"
    ensures !IsActive("/catalogo/1", "/catalogo") && !IsActive("/catalogo/1", "/")
  {
  }
}
