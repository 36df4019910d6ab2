/** The cart drawer (src/components/shared/Cart/Cart.jsx): the coupon box,
    the discount and total it shows, the free-shipping progress and the
    guard on the quantity buttons. */
module CartDrawer {
  import opened Common
  import opened Text
  import opened CartContext

  /** The subtotal from which shipping is free. */
  const FreeShippingThreshold: real := 150000.0

  /** The only code the drawer accepts, compared after lower-casing. */
  const CouponCode: string := "bienvenido15"

  /** An applied coupon: the code as typed and its rate. */
  datatype Coupon = Coupon(code: string, rate: real)

  /** The drawer's own state: the coupon input and the applied coupon. */
  datatype Drawer = Drawer(input: string, coupon: Option<Coupon>)

  const InitialDrawer: Drawer := Drawer("", None)

  // ---------------------------------------------------------------------
  // Coupon

  /** Equal up to the letter case of ASCII letters. */
  predicate SameIgnoringCase(a: string, b: string) {
    |a| == |b| && forall i | 0 <= i < |a| :: LowerChar(a[i]) == LowerChar(b[i])
  }

  /** `handleApplyCoupon`: a code equal to `bienvenido15` after lower-casing
      becomes the applied coupon at 15% and the input is cleared; any other
      code leaves the drawer as it was. */
  function ApplyCoupon(d: Drawer): (r: Drawer)
    ensures Lower(d.input) == CouponCode ==> r == Drawer("", Some(Coupon(d.input, 0.15)))
    ensures Lower(d.input) != CouponCode ==> r == d
  {
    if Lower(d.input) == "bienvenido15" then Drawer("", Some(Coupon(d.input, 0.15))) else d
  }

  /** The code is accepted exactly when it spells `bienvenido15` in any mix
      of letter cases. */
  lemma {:induction false} CouponAcceptedIff(code: string)
    ensures Lower(code) == CouponCode <==> SameIgnoringCase(code, CouponCode)
  {
    assert Lower(CouponCode) == CouponCode;
    if SameIgnoringCase(code, CouponCode) {
      assert forall i | 0 <= i < |code| :: Lower(code)[i] == CouponCode[i] by {
        forall i | 0 <= i < |code| ensures Lower(code)[i] == CouponCode[i] {
          assert LowerChar(code[i]) == LowerChar(CouponCode[i]);
          assert Lower(CouponCode)[i] == LowerChar(CouponCode[i]);
        }
      }
    }
    if Lower(code) == CouponCode {
      forall i | 0 <= i < |code| ensures LowerChar(code[i]) == LowerChar(CouponCode[i]) {
        assert Lower(code)[i] == LowerChar(code[i]);
        assert Lower(CouponCode)[i] == LowerChar(CouponCode[i]);
      }
    }
  }

  /** Upper case is accepted and keeps the typed spelling; a space or a
      wrong digit is refused. */
  lemma CouponExamples()
    ensures ApplyCoupon(Drawer("BIENVENIDO15", None)).coupon == Some(Coupon("BIENVENIDO15", 0.15))
    ensures ApplyCoupon(Drawer("Bienvenido15", None)).input == ""
    ensures ApplyCoupon(Drawer("bienvenido 15", None)).coupon == None
    ensures ApplyCoupon(Drawer("bienvenido16", None)).coupon == None
  {
    assert Lower("bienvenido 15") != CouponCode by {
      assert |Lower("bienvenido 15")| == 13;
    }
    assert Lower("bienvenido16") != CouponCode by {
      assert Lower("bienvenido16")[11] == '6';
    }
  }

  /** The apply button is shown only while no coupon is applied, and is
      disabled while the input is empty; a press otherwise does nothing. */
  function PressApply(d: Drawer): (r: Drawer)
    ensures d.coupon.Some? || d.input == [] ==> r == d
    ensures d.coupon.None? && d.input != [] ==> r == ApplyCoupon(d)
  {
    if d.coupon.None? && d.input != [] then ApplyCoupon(d) else d
  }

  /** The remove button beside an applied coupon: back to no coupon. */
  function RemoveCoupon(d: Drawer): (r: Drawer)
    ensures r.coupon.None? && r.input == d.input
  {
    d.(coupon := None)
  }

  // ---------------------------------------------------------------------
  // Amounts

  /** The discount: 15% of the subtotal with any coupon, none without. */
  function Discount(subtotal: real, coupon: Option<Coupon>): (r: real)
    ensures coupon.None? ==> r == 0.0
    ensures coupon.Some? ==> r == subtotal * 0.15
  {
    if coupon.Some? then subtotal * 0.15 else 0.0
  }

  /** The total the drawer shows: subtotal less the discount. */
  function ShownTotal(cart: Cart, d: Drawer): (r: real)
    ensures d.coupon.None? ==> r == Total(cart)
    ensures d.coupon.Some? ==> r == 0.85 * Total(cart)
  {
    Total(cart) - Discount(Total(cart), d.coupon)
  }

  /** Applying the coupon and then removing it leaves the total as it was
      without one. */
  lemma ApplyRemoveTotal(cart: Cart, d: Drawer)
    requires d.coupon.None?
    ensures ShownTotal(cart, RemoveCoupon(PressApply(d))) == ShownTotal(cart, d)
  {
  }

  /** `remainingForFreeShipping`: how much is missing up to 150000, never
      negative. */
  function Remaining(subtotal: real): (r: real)
    ensures r >= 0.0
    ensures r == 0.0 <==> subtotal >= FreeShippingThreshold
    ensures r > 0.0 ==> subtotal + r == FreeShippingThreshold
  {
    if FreeShippingThreshold - subtotal > 0.0 then FreeShippingThreshold - subtotal else 0.0
  }

  /** `shippingProgress`: the subtotal as a percentage of 150000, at most
      100. */
  function Progress(subtotal: real): (r: real)
    ensures r <= 100.0
    ensures subtotal >= 0.0 ==> r >= 0.0
    ensures r == 100.0 <==> subtotal >= FreeShippingThreshold
  {
    var p := subtotal / FreeShippingThreshold * 100.0;
    if p < 100.0 then p else 100.0
  }

  /** The bar and the missing amount tell the same story: below the
      threshold the bar is the paid share and the rest is what is missing. */
  lemma ProgressRemaining(subtotal: real)
    requires subtotal >= 0.0
    ensures Progress(subtotal) * 1500.0 + Remaining(subtotal) == FreeShippingThreshold
         || (Progress(subtotal) == 100.0 && Remaining(subtotal) == 0.0)
    ensures Progress(subtotal) == 100.0 <==> Remaining(subtotal) == 0.0
  {
  }

  /** "Te faltan ..." banner. */
  predicate ProgressBanner(cart: Cart) {
    |cart| > 0 && Remaining(Total(cart)) > 0.0
  }

  /** "Envío gratis" banner. */
  predicate AchievedBanner(cart: Cart) {
    |cart| > 0 && Remaining(Total(cart)) <= 0.0
  }

  /** A non-empty drawer shows exactly one of the two banners, the second
      from a subtotal of 150000; an empty one shows neither. */
  lemma BannersExclusive(cart: Cart)
    ensures AchievedBanner(cart) <==> |cart| > 0 && Total(cart) >= FreeShippingThreshold
    ensures ProgressBanner(cart) <==> |cart| > 0 && Total(cart) < FreeShippingThreshold
    ensures |cart| > 0 <==> (ProgressBanner(cart) != AchievedBanner(cart))
  {
  }

  // ---------------------------------------------------------------------
  // Quantity buttons and badge

  /** What a press of +/- on a line does: ask the context to set a new
      quantity, nothing, or throw because no line has the id. */
  datatype QuantityOutcome = Request(id: int, quantity: int) | NoRequest | Missing

  /** The first line with the id, as `cartItems.find` returns it. */
  function FindLine(cart: Cart, id: int): (r: Option<Line>)
    ensures r.Some? <==> HasId(cart, id)
    ensures r.Some? ==> r.value in cart && r.value.Id() == id
    ensures r.Some? ==> exists i | 0 <= i < |cart| ::
      cart[i] == r.value && forall j | 0 <= j < i :: cart[j].Id() != id
  {
    if |cart| == 0 then None
    else if cart[0].Id() == id then Some(cart[0])
    else
      var r := FindLine(cart[1..], id);
      assert forall i | 1 <= i < |cart| :: cart[i] == cart[1..][i - 1];
      assert r.Some? ==> exists i | 1 <= i < |cart| ::
        cart[i] == r.value && forall j | 0 <= j < i :: cart[j].Id() != id by {
        if r.Some? {
          var k :| 0 <= k < |cart[1..]| && cart[1..][k] == r.value &&
            forall j | 0 <= j < k :: cart[1..][j].Id() != id;
          assert cart[k + 1] == r.value;
        }
      }
      r
  }

  /** `handleQuantityChange(id, change)`: the new quantity is requested only
      when it is positive. */
  function QuantityChange(cart: Cart, id: int, change: int): (r: QuantityOutcome)
    ensures r.Missing? <==> !HasId(cart, id)
    ensures r.Request? ==> r.id == id && r.quantity >= 1
    ensures HasId(cart, id) ==> (r.Request? <==> FindLine(cart, id).value.quantity + change >= 1)
    ensures r.Request? ==> r.quantity == FindLine(cart, id).value.quantity + change
  {
    match FindLine(cart, id)
    case None => Missing
    case Some(l) => if l.quantity + change > 0 then Request(id, l.quantity + change) else NoRequest
  }

  /** "-" on a line of quantity 1 requests nothing; "+" always requests one
      more, for a line holding at least one unit. */
  lemma DecrementGuard(cart: Cart, id: int)
    requires HasId(cart, id)
    requires forall i | 0 <= i < |cart| :: cart[i].quantity >= 1
    ensures QuantityChange(cart, id, 1).Request?
    ensures FindLine(cart, id).value.quantity == 1 ==> QuantityChange(cart, id, -1) == NoRequest
  {
  }

  /** The drawer's badge: the number of lines. */
  function Badge(cart: Cart): (n: nat)
    ensures n == 0 <==> cart == []
  {
    |cart|
  }

  /** The badge counts lines, not units: adding more of a product already in
      the cart leaves it where it was. */
  lemma BadgeCountsLines(cart: Cart, offer: Offer, q: int)
    requires HasId(cart, offer.product.id)
    ensures Badge(Add(cart, offer, q)) == Badge(cart)
  {
  }
}
