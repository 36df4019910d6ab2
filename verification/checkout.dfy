/** The checkout page (src/pages/Checkout/Checkout.jsx): the order totals,
    the per-step field validation and the three-step wizard that gates
    submission. */
module Checkout {
  import opened Common
  import opened Text
  import opened CartContext

  // ---------------------------------------------------------------------
  // Totals

  /** The shipping option's price: express 15000, standard 5000, anything
      else (the free option) 0. */
  function ShippingCost(option: string): (c: real)
    ensures c in {0.0, 5000.0, 15000.0}
    ensures c == 15000.0 <==> option == "express"
    ensures c == 5000.0 <==> option == "standard"
  {
    if option == "express" then 15000.0
    else if option == "standard" then 5000.0
    else 0.0
  }

  /** The coupon rate, applied to the subtotal. */
  const CouponRate: real := 0.15

  /** The VAT rate, applied to the discounted subtotal plus shipping. */
  const TaxRate: real := 0.19

  datatype Totals = Totals(subtotal: real, discount: real, shipping: real, tax: real, total: real)

  /** The order summary for a subtotal, a coupon flag and a shipping option. */
  function Summary(subtotal: real, coupon: bool, option: string): (t: Totals)
    ensures t.subtotal == subtotal && t.shipping == ShippingCost(option)
    ensures t.discount == (if coupon then subtotal * CouponRate else 0.0)
    ensures t.tax == TaxRate * (subtotal - t.discount + t.shipping)
    ensures t.total == 1.19 * (subtotal - t.discount + t.shipping)
  {
    var discount := if coupon then subtotal * 0.15 else 0.0;
    var shipping := ShippingCost(option);
    var tax := (subtotal - discount + shipping) * 0.19;
    Totals(subtotal, discount, shipping, tax, subtotal - discount + shipping + tax)
  }

  /** The totals the page shows: the subtotal is the cart's total, and the
      page's coupon is never set, so there is never a discount. */
  function PageTotals(cart: Cart, option: string): (t: Totals)
    ensures t.subtotal == Total(cart) && t.discount == 0.0
    ensures t.total == 1.19 * (Total(cart) + ShippingCost(option))
  {
    Summary(Total(cart), false, option)
  }

  /** A 200000 cart with the coupon and standard shipping costs 208250; the
      page itself, which never applies the coupon, charges 243950. */
  lemma SummaryExample()
    ensures Summary(200000.0, true, "standard").total == 208250.0
    ensures Summary(200000.0, false, "standard").total == 243950.0
    ensures Summary(200000.0, true, "standard").tax == 33250.0
  {
  }

  /** The free option can be chosen only from a subtotal of 150000 up. */
  function FreeShippingEnabled(subtotal: real): (b: bool)
    ensures b <==> subtotal >= 150000.0
  {
    !(subtotal < 150000.0)
  }

  // ---------------------------------------------------------------------
  // The form

  datatype Form = Form(
    email: string,
    phone: string,
    firstName: string,
    lastName: string,
    address: string,
    city: string,
    state: string,
    zipCode: string,
    country: string,
    shippingMethod: string,
    paymentMethod: string,
    cardNumber: string,
    cardName: string,
    expiryDate: string,
    cvv: string,
    saveInfo: bool,
    newsletter: bool)

  const InitialForm: Form := Form("", "", "", "", "", "", "", "", "Colombia", "standard", "card",
                                  "", "", "", "", false, true)

  /** Picking a shipping option: a disabled radio cannot be picked, so the
      free option is ignored below 150000. */
  function ChooseShipping(form: Form, option: string, subtotal: real): (r: Form)
    ensures r.shippingMethod == option || r == form
    ensures option == "free" && subtotal < 150000.0 ==> r == form
    ensures option != "free" ==> r == form.(shippingMethod := option)
  {
    if option == "free" && !FreeShippingEnabled(subtotal) then form
    else form.(shippingMethod := option)
  }

  /** Below 150000 the page never charges the free rate unless it was already
      selected: every option that can be picked costs 5000 or 15000, or is an
      unknown one. */
  lemma NoFreeShippingBelowThreshold(form: Form, option: string, subtotal: real)
    requires subtotal < 150000.0 && form.shippingMethod in {"standard", "express"}
    ensures ChooseShipping(form, option, subtotal).shippingMethod != "free"
  {
  }

  /** The form fields that can carry an error message. */
  datatype Field =
    | Email | Phone | FirstName | LastName | Address | City | State | ZipCode
    | CardNumber | CardName | ExpiryDate | Cvv

  /** The errors shown under the fields: field to message. */
  type Errors = map<Field, string>

  /** Whether a step-1 field fails its check, and the message it gets. */
  predicate ContactFails(form: Form, f: Field) {
    match f
    case Email => form.email == [] || !LooseEmail(form.email)
    case Phone => form.phone == [] || !TenDigits(StripSpaces(form.phone))
    case FirstName => form.firstName == []
    case LastName => form.lastName == []
    case Address => form.address == []
    case City => form.city == []
    case ZipCode => form.zipCode == []
    case _ => false
  }

  function ContactMessage(form: Form, f: Field): string {
    match f
    case Email => if form.email == [] then "El email es requerido" else "Email inválido"
    case Phone => if form.phone == [] then "El teléfono es requerido" else "Teléfono inválido (10 dígitos)"
    case FirstName => "El nombre es requerido"
    case LastName => "El apellido es requerido"
    case Address => "La dirección es requerida"
    case City => "La ciudad es requerida"
    case _ => "El código postal es requerido"
  }

  const ContactFields: set<Field> := {Email, Phone, FirstName, LastName, Address, City, ZipCode}

  /** The step-1 errors: contact and shipping address. */
  function ContactErrors(form: Form): (e: Errors)
    ensures e.Keys <= ContactFields
    ensures Email in e <==> !LooseEmail(form.email)
    ensures Phone in e <==> !TenDigits(StripSpaces(form.phone))
    ensures FirstName in e <==> form.firstName == []
    ensures LastName in e <==> form.lastName == []
    ensures Address in e <==> form.address == []
    ensures City in e <==> form.city == []
    ensures ZipCode in e <==> form.zipCode == []
  {
    assert !LooseEmail([]);
    assert !TenDigits(StripSpaces([]));
    map f | f in ContactFields && ContactFails(form, f) :: ContactMessage(form, f)
  }

  /** Whether a step-3 card field fails its check, and the message it gets. */
  predicate CardFails(form: Form, f: Field) {
    match f
    case CardNumber => form.cardNumber == [] || |form.cardNumber| < 16
    case CardName => form.cardName == []
    case ExpiryDate => form.expiryDate == [] || !ExpiryFormat(form.expiryDate)
    case Cvv => form.cvv == [] || |form.cvv| < 3
    case _ => false
  }

  function CardMessage(f: Field): string {
    match f
    case CardNumber => "Número de tarjeta inválido"
    case CardName => "Nombre del titular requerido"
    case ExpiryDate => "Formato: MM/AA"
    case _ => "CVV inválido"
  }

  const CardFields: set<Field> := {CardNumber, CardName, ExpiryDate, Cvv}

  /** The step-3 errors when paying by card. */
  function CardErrors(form: Form): (e: Errors)
    ensures e.Keys <= CardFields
    ensures CardNumber in e <==> |form.cardNumber| < 16
    ensures CardName in e <==> form.cardName == []
    ensures ExpiryDate in e <==> !ExpiryFormat(form.expiryDate)
    ensures Cvv in e <==> |form.cvv| < 3
  {
    map f | f in CardFields && CardFails(form, f) :: CardMessage(f)
  }

  /** `validateStep(step)`'s error object. */
  function StepErrors(form: Form, step: int): (e: Errors)
    ensures step != 1 && step != 3 ==> e == map[]
    ensures step == 3 && form.paymentMethod != "card" ==> e == map[]
  {
    if step == 1 then ContactErrors(form)
    else if step == 3 && form.paymentMethod == "card" then CardErrors(form)
    else map[]
  }

  /** What each step requires, field by field. An empty email or phone
      already fails the pattern, so the "required" messages need no
      separate condition. */
  predicate ContactOk(form: Form) {
    && LooseEmail(form.email) && TenDigits(StripSpaces(form.phone))
    && form.firstName != [] && form.lastName != [] && form.address != []
    && form.city != [] && form.zipCode != []
  }

  predicate CardOk(form: Form) {
    && |form.cardNumber| >= 16 && form.cardName != []
    && ExpiryFormat(form.expiryDate) && |form.cvv| >= 3
  }

  predicate StepOk(form: Form, step: int) {
    (step == 1 ==> ContactOk(form)) && (step == 3 && form.paymentMethod == "card" ==> CardOk(form))
  }

  lemma {:induction false} ContactErrorsEmptyIff(form: Form)
    ensures |ContactErrors(form)| == 0 <==> ContactOk(form)
  {
    var c := ContactErrors(form);
    if ContactOk(form) {
      assert c.Keys == {};
    } else {
      assert exists k :: k in c;
    }
  }

  lemma {:induction false} CardErrorsEmptyIff(form: Form)
    ensures |CardErrors(form)| == 0 <==> CardOk(form)
  {
    var d := CardErrors(form);
    if CardOk(form) {
      assert d.Keys == {};
    } else {
      assert exists k :: k in d;
    }
  }

  /** The step validates (no error key) exactly when every field it checks
      is acceptable; the optional `state` field never has an error. */
  lemma {:induction false} StepErrorsEmptyIff(form: Form, step: int)
    ensures |StepErrors(form, step)| == 0 <==> StepOk(form, step)
    ensures Field.State !in StepErrors(form, step)
  {
    if step == 1 {
      ContactErrorsEmptyIff(form);
    } else if step == 3 && form.paymentMethod == "card" {
      CardErrorsEmptyIff(form);
    }
  }

  /** `handleInputChange`'s error clearing: a field's non-empty error becomes
      the empty message; nothing else changes. */
  function ClearError(errors: Errors, name: Field): (r: Errors)
    ensures r.Keys == errors.Keys
    ensures name in r ==> r[name] == ""
    ensures forall k | k in errors && k != name :: r[k] == errors[k]
  {
    if name in errors && errors[name] != "" then errors[name := ""] else errors
  }

  // ---------------------------------------------------------------------
  // The wizard

  /** The page's state: the step shown, the error object, the form and the
      cart; `placed` is set once the order has gone through. */
  datatype Wizard = Wizard(step: int, errors: Errors, form: Form, cart: Cart, placed: bool)

  function Start(cart: Cart): (w: Wizard)
    ensures w.step == 1 && w.form.shippingMethod == "standard" && w.form.paymentMethod == "card"
    ensures w.errors == map[] && !w.placed && w.cart == cart
  {
    Wizard(1, map[], InitialForm, cart, false)
  }

  predicate InRange(w: Wizard) { 1 <= w.step <= 3 }

  /** `handleNextStep`: validate the current step; advance (at most to 3)
      only when it has no error. */
  function Next(w: Wizard): (r: Wizard)
    ensures r.errors == StepErrors(w.form, w.step)
    ensures r.form == w.form && r.cart == w.cart && r.placed == w.placed
    ensures r.step == if StepOk(w.form, w.step) then Min(w.step + 1, 3) else w.step
  {
    var e := StepErrors(w.form, w.step);
    StepErrorsEmptyIff(w.form, w.step);
    if |e| == 0 then w.(step := if w.step + 1 < 3 then w.step + 1 else 3, errors := e)
    else w.(errors := e)
  }

  function Min(a: int, b: int): int { if a <= b then a else b }

  /** `handlePreviousStep`: back one step, never below 1. */
  function Previous(w: Wizard): (r: Wizard)
    ensures w.step >= 2 ==> r.step == w.step - 1
    ensures w.step < 2 ==> r.step == 1
    ensures r == w.(step := r.step)
  {
    w.(step := if w.step - 1 > 1 then w.step - 1 else 1)
  }

  /** A click on step indicator `n` moves there only when it is strictly
      earlier than the current step. */
  function Jump(w: Wizard, n: int): (r: Wizard)
    ensures r.step <= w.step
    ensures r.step != w.step ==> r.step == n && n < w.step
    ensures r == w.(step := r.step)
  {
    if w.step > n then w.(step := n) else w
  }

  /** `handleCheckout`: validate the current step; when it passes, the cart
      is cleared and the order is placed. */
  function Submit(w: Wizard): (r: Wizard)
    ensures r.errors == StepErrors(w.form, w.step) && r.step == w.step && r.form == w.form
    ensures StepOk(w.form, w.step) ==> r.cart == [] && r.placed
    ensures !StepOk(w.form, w.step) ==> r.cart == w.cart && r.placed == w.placed
  {
    var e := StepErrors(w.form, w.step);
    StepErrorsEmptyIff(w.form, w.step);
    if |e| == 0 then w.(errors := e, cart := Clear(), placed := true)
    else w.(errors := e)
  }

  /** Every transition keeps the step in 1..3 (the indicators are numbered
      1 to 3). */
  lemma StepStaysInRange(w: Wizard, n: int)
    requires InRange(w) && 1 <= n <= 3
    ensures InRange(Next(w)) && InRange(Previous(w)) && InRange(Jump(w, n)) && InRange(Submit(w))
  {
  }

  /** From the start, an order with a valid contact step and card details
      takes two "next" clicks and a submission, and leaves the cart empty;
      the shipping step never holds anything up. */
  lemma HappyPath(cart: Cart, form: Form)
    requires ContactOk(form) && CardOk(form)
    ensures var w := Start(cart).(form := form);
      Next(w).step == 2 && Next(Next(w)).step == 3 && Submit(Next(Next(w))).cart == []
      && Submit(Next(Next(w))).placed
  {
  }

  /** The wizard can only be at step 3 after step 1 passed: reaching step 2
      from step 1 needs a valid contact step. */
  lemma NextFromOneNeedsContact(w: Wizard)
    requires w.step == 1
    ensures Next(w).step == 2 <==> ContactOk(w.form)
  {
  }
}
