/** The cart engine (src/contexts/CartContext.jsx): an ordered list of cart
    lines keyed by product id, the `addToCart`, `removeFromCart`,
    `getCartTotal` and `clearCart` operations, and the browser storage slot
    `cartItems` the cart is loaded from and written back to after every
    change. */
module CartContext {
  import opened Common
  import opened Products

  /** What a caller hands to `addToCart`: a product record, possibly with
      `size` and `quantity` fields spread into it. */
  datatype Offer = Offer(product: Product, size: Option<real>, quantity: Option<int>)

  /** A cart line: a copy of the product taken when it was added, the size
      carried by that first offer, and the number of units. */
  datatype Line = Line(product: Product, size: Option<real>, quantity: int) {
    function Id(): int { product.id }
  }

  type Cart = seq<Line>

  /** Every line has its own product id. */
  predicate UniqueIds(cart: Cart) {
    forall i, j | 0 <= i < j < |cart| :: cart[i].Id() != cart[j].Id()
  }

  /** Some line carries product `id` (`cartItems.find(item => item.id === id)`). */
  predicate HasId(cart: Cart, id: int) {
    exists i | 0 <= i < |cart| :: cart[i].Id() == id
  }

  /** `r` is `cart` with `q` more units on every line of product `id`: same
      lines in the same order, same product copies and sizes. */
  predicate Bumped(cart: Cart, r: Cart, id: int, q: int) {
    && |r| == |cart|
    && forall i | 0 <= i < |cart| ::
         && r[i].product == cart[i].product && r[i].size == cart[i].size
         && r[i].quantity == cart[i].quantity + (if cart[i].Id() == id then q else 0)
  }

  // ---------------------------------------------------------------------
  // Operations on the line list

  /** `addToCart(product, quantity = 1)`. When a line with the product's id
      exists, every such line gets `quantity` more units and keeps its own
      product copy and size; otherwise one line is appended whose quantity
      is the `quantity` argument, not any `quantity` field of the offer. */
  function Add(cart: Cart, offer: Offer, quantity: int): (r: Cart)
    ensures HasId(cart, offer.product.id) ==> Bumped(cart, r, offer.product.id, quantity)
    ensures !HasId(cart, offer.product.id) ==>
      r == cart + [Line(offer.product, offer.size, quantity)]
    ensures HasId(r, offer.product.id)
  {
    var id := offer.product.id;
    if HasId(cart, id) then
      seq(|cart|, i requires 0 <= i < |cart| =>
        if cart[i].Id() == id then cart[i].(quantity := cart[i].quantity + quantity) else cart[i])
    else
      assert (cart + [Line(offer.product, offer.size, quantity)])[|cart|].Id() == id;
      cart + [Line(offer.product, offer.size, quantity)]
  }

  /** `removeFromCart(id)`: every line with that id is dropped, the others
      stay in order. */
  function Remove(cart: Cart, id: int): (r: Cart)
    ensures !HasId(r, id)
    ensures forall l :: l in r <==> l in cart && l.Id() != id
    ensures |r| <= |cart|
  {
    Filter(cart, (l: Line) => l.Id() != id)
  }

  /** Removing from two joined carts is removing from each, so the kept
      lines keep their order and their number of copies. */
  lemma RemoveAppend(a: Cart, b: Cart, id: int)
    ensures Remove(a + b, id) == Remove(a, id) + Remove(b, id)
  {
    FilterAppend(a, b, (l: Line) => l.Id() != id);
  }

  /** A single line is dropped exactly when it carries the id. */
  lemma RemoveOne(l: Line, id: int)
    ensures Remove([l], id) == if l.Id() == id then [] else [l]
  {
    FilterSingleton(l, (l: Line) => l.Id() != id);
  }

  /** Removing drops every copy of a line with the id and keeps every other
      line as many times as it occurred. */
  lemma {:induction false} RemoveMultiset(cart: Cart, id: int)
    ensures forall l :: multiset(Remove(cart, id))[l] == if l.Id() == id then 0 else multiset(cart)[l]
  {
    if |cart| > 0 {
      assert cart == [cart[0]] + cart[1..];
      RemoveAppend([cart[0]], cart[1..], id);
      RemoveOne(cart[0], id);
      RemoveMultiset(cart[1..], id);
    }
  }

  /** `clearCart()` */
  function Clear(): (r: Cart)
    ensures |r| == 0
  {
    []
  }

  /** The amount of one line: its stored price times its quantity. */
  function Amount(l: Line): real {
    l.product.price * l.quantity as real
  }

  /** `getCartTotal()`: `reduce((total, item) => total + item.price * item.quantity, 0)`. */
  function Total(cart: Cart): (r: real)
    ensures |cart| == 0 ==> r == 0.0
  {
    if |cart| == 0 then 0.0 else Total(cart[..|cart| - 1]) + Amount(cart[|cart| - 1])
  }

  /** A single line totals its own amount. */
  lemma TotalOne(l: Line)
    ensures Total([l]) == l.product.price * l.quantity as real
  {
  }

  /** The number of units of product `id` in the cart. */
  function UnitsOf(cart: Cart, id: int): int {
    if |cart| == 0 then 0
    else UnitsOf(cart[..|cart| - 1], id) + (if cart[|cart| - 1].Id() == id then cart[|cart| - 1].quantity else 0)
  }

  // ---------------------------------------------------------------------
  // Properties of the operations

  lemma {:induction false} TotalAppend(a: Cart, b: Cart)
    ensures Total(a + b) == Total(a) + Total(b)
  {
    if |b| > 0 {
      assert (a + b)[..|a + b| - 1] == a + b[..|b| - 1];
      TotalAppend(a, b[..|b| - 1]);
    } else {
      assert a + b == a;
    }
  }

  lemma {:induction false} UnitsOfAppend(a: Cart, b: Cart, id: int)
    ensures UnitsOf(a + b, id) == UnitsOf(a, id) + UnitsOf(b, id)
  {
    if |b| > 0 {
      assert (a + b)[..|a + b| - 1] == a + b[..|b| - 1];
      UnitsOfAppend(a, b[..|b| - 1], id);
    } else {
      assert a + b == a;
    }
  }

  /** The total is the sum of the line amounts, so an empty cart is worth 0. */
  lemma TotalEmpty()
    ensures Total(Clear()) == 0.0
  {
  }

  /** Adding keeps the one-line-per-id invariant. */
  lemma AddKeepsUnique(cart: Cart, offer: Offer, quantity: int)
    requires UniqueIds(cart)
    ensures UniqueIds(Add(cart, offer, quantity))
  {
    var r := Add(cart, offer, quantity);
    if HasId(cart, offer.product.id) {
      assert forall i | 0 <= i < |r| :: r[i].Id() == cart[i].Id();
    }
  }

  /** Adding a product id the cart lacks raises the total by the offer's
      price times the quantity. */
  lemma AddNewTotal(cart: Cart, offer: Offer, quantity: int)
    requires !HasId(cart, offer.product.id)
    ensures Total(Add(cart, offer, quantity)) == Total(cart) + offer.product.price * quantity as real
  {
    TotalAppend(cart, [Line(offer.product, offer.size, quantity)]);
  }

  /** Bumping the quantity of the lines with `id` by `q` raises the total by
      `q` times the sum of their stored prices. */
  lemma BumpTotal(cart: Cart, r: Cart, id: int, q: int)
    requires Bumped(cart, r, id, q)
    ensures Total(r) == Total(cart) + PriceOf(cart, id) * q as real
  {
    BumpGain(cart, r, id, q);
    GainPrice(cart, id, q);
  }

  /** What `q` more units of every line of product `id` add to the total, line by line. */
  function Gain(cart: Cart, id: int, q: int): real {
    if |cart| == 0 then 0.0 else
      var last := cart[|cart| - 1];
      Gain(cart[..|cart| - 1], id, q) + (if last.Id() == id then last.product.price * q as real else 0.0)
  }

  lemma {:induction false} BumpGain(cart: Cart, r: Cart, id: int, q: int)
    requires Bumped(cart, r, id, q)
    ensures Total(r) == Total(cart) + Gain(cart, id, q)
  {
    if |cart| > 0 {
      BumpedPrefix(cart, r, id, q);
      BumpGain(cart[..|cart| - 1], r[..|r| - 1], id, q);
      var last, rlast := cart[|cart| - 1], r[|r| - 1];
      assert rlast.product == last.product;
      assert rlast.quantity == last.quantity + (if last.Id() == id then q else 0);
      AmountBump(last, rlast, id, q);
    }
  }

  /** One line's amount after the bump. */
  lemma AmountBump(last: Line, rlast: Line, id: int, q: int)
    requires rlast.product == last.product
    requires rlast.quantity == last.quantity + (if last.Id() == id then q else 0)
    ensures Amount(rlast) == Amount(last) + (if last.Id() == id then last.product.price * q as real else 0.0)
  {
    var p, extra := last.product.price, if last.Id() == id then q else 0;
    assert p * (last.quantity + extra) as real == p * last.quantity as real + p * extra as real;
  }

  lemma {:induction false} GainPrice(cart: Cart, id: int, q: int)
    ensures Gain(cart, id, q) == PriceOf(cart, id) * q as real
  {
    if |cart| > 0 {
      GainPrice(cart[..|cart| - 1], id, q);
      var last := cart[|cart| - 1];
      var x := if last.Id() == id then last.product.price else 0.0;
      assert (PriceOf(cart[..|cart| - 1], id) + x) * q as real
          == PriceOf(cart[..|cart| - 1], id) * q as real + x * q as real;
    }
  }

  /** Dropping the last line of both carts keeps them `Bumped`. */
  lemma BumpedPrefix(cart: Cart, r: Cart, id: int, q: int)
    requires Bumped(cart, r, id, q) && |cart| > 0
    ensures Bumped(cart[..|cart| - 1], r[..|r| - 1], id, q)
  {
    var init, rinit := cart[..|cart| - 1], r[..|r| - 1];
    forall i | 0 <= i < |init|
      ensures rinit[i].product == init[i].product && rinit[i].size == init[i].size
      ensures rinit[i].quantity == init[i].quantity + (if init[i].Id() == id then q else 0)
    {
      assert rinit[i] == r[i] && init[i] == cart[i];
    }
  }

  function PriceOf(cart: Cart, id: int): real {
    if |cart| == 0 then 0.0
    else PriceOf(cart[..|cart| - 1], id) + (if cart[|cart| - 1].Id() == id then cart[|cart| - 1].product.price else 0.0)
  }

  /** Adding `quantity` units of a product already in the cart raises the
      total by `quantity` times the price stored in the existing line, not
      the price of the offer. */
  lemma {:induction false} AddExistingTotal(cart: Cart, offer: Offer, quantity: int, i: int)
    requires UniqueIds(cart)
    requires 0 <= i < |cart| && cart[i].Id() == offer.product.id
    ensures Total(Add(cart, offer, quantity)) == Total(cart) + cart[i].product.price * quantity as real
  {
    assert HasId(cart, offer.product.id);
    BumpTotal(cart, Add(cart, offer, quantity), offer.product.id, quantity);
    PriceOfUnique(cart, i);
  }

  lemma {:induction false} PriceOfUnique(cart: Cart, i: int)
    requires UniqueIds(cart)
    requires 0 <= i < |cart|
    ensures PriceOf(cart, cart[i].Id()) == cart[i].product.price
  {
    var init := cart[..|cart| - 1];
    if i == |cart| - 1 {
      PriceOfAbsent(init, cart[i].Id());
    } else {
      PriceOfUnique(init, i);
    }
  }

  lemma {:induction false} PriceOfAbsent(cart: Cart, id: int)
    requires !HasId(cart, id)
    ensures PriceOf(cart, id) == 0.0
  {
    if |cart| > 0 {
      PriceOfAbsent(cart[..|cart| - 1], id);
    }
  }

  lemma {:induction false} UnitsOfBump(cart: Cart, r: Cart, id: int, q: int)
    requires Bumped(cart, r, id, q)
    requires exists i | 0 <= i < |cart| :: cart[i].Id() == id && forall j | 0 <= j < |cart| && j != i :: cart[j].Id() != id
    ensures UnitsOf(r, id) == UnitsOf(cart, id) + q
  {
    var i :| 0 <= i < |cart| && cart[i].Id() == id && forall j | 0 <= j < |cart| && j != i :: cart[j].Id() != id;
    var init, rinit := cart[..|cart| - 1], r[..|r| - 1];
    BumpedPrefix(cart, r, id, q);
    if i == |cart| - 1 {
      UnitsOfOthers(init, rinit, id);
    } else {
      assert init[i] == cart[i];
      assert forall j | 0 <= j < |init| && j != i :: init[j].Id() != id by {
        forall j | 0 <= j < |init| && j != i ensures init[j].Id() != id {
          assert init[j] == cart[j];
        }
      }
      UnitsOfBump(init, rinit, id, q);
    }
  }

  lemma {:induction false} UnitsOfOthers(cart: Cart, r: Cart, id: int)
    requires |r| == |cart|
    requires forall i | 0 <= i < |cart| :: r[i].Id() == cart[i].Id() && cart[i].Id() != id
    ensures UnitsOf(r, id) == 0 && UnitsOf(cart, id) == 0
  {
    if |cart| > 0 {
      UnitsOfOthers(cart[..|cart| - 1], r[..|r| - 1], id);
    }
  }

  /** With one line per id, adding `quantity` units of a product raises its
      unit count by exactly `quantity`, whether or not it was present. */
  lemma AddUnits(cart: Cart, offer: Offer, quantity: int)
    requires UniqueIds(cart)
    ensures UnitsOf(Add(cart, offer, quantity), offer.product.id) == UnitsOf(cart, offer.product.id) + quantity
  {
    var id := offer.product.id;
    var r := Add(cart, offer, quantity);
    if HasId(cart, id) {
      var i :| 0 <= i < |cart| && cart[i].Id() == id;
      UnitsOfBump(cart, r, id, quantity);
    } else {
      UnitsOfAppend(cart, [Line(offer.product, offer.size, quantity)], id);
    }
  }

  /** Successive `addToCart` calls with one product id, starting from a cart
      without it: the units add up. */
  function AddAll(cart: Cart, offer: Offer, qs: seq<int>): Cart {
    if |qs| == 0 then cart else Add(AddAll(cart, offer, qs[..|qs| - 1]), offer, qs[|qs| - 1])
  }

  function SumOf(qs: seq<int>): int {
    if |qs| == 0 then 0 else SumOf(qs[..|qs| - 1]) + qs[|qs| - 1]
  }

  /** The number of lines with product `id`. */
  function LinesWith(cart: Cart, id: int): nat {
    |Filter(cart, (l: Line) => l.Id() == id)|
  }

  lemma {:induction false} LinesWithUnique(cart: Cart, i: int)
    requires UniqueIds(cart) && 0 <= i < |cart|
    ensures LinesWith(cart, cart[i].Id()) == 1
  {
    var id := cart[i].Id();
    var p := (l: Line) => l.Id() == id;
    assert cart == cart[..i] + [cart[i]] + cart[i + 1..];
    FilterAppend(cart[..i] + [cart[i]], cart[i + 1..], p);
    FilterAppend(cart[..i], [cart[i]], p);
    FilterNone(cart[..i], p);
    FilterNone(cart[i + 1..], p);
    assert [cart[i]][1..] == [];
  }

  /** Scenario: a sequence of `addToCart` calls with the same product leaves
      exactly one line for it, holding the sum of the quantities. */
  lemma {:induction false} AddAllSums(cart: Cart, offer: Offer, qs: seq<int>)
    requires UniqueIds(cart) && !HasId(cart, offer.product.id)
    requires |qs| > 0
    ensures UniqueIds(AddAll(cart, offer, qs))
    ensures LinesWith(AddAll(cart, offer, qs), offer.product.id) == 1
    ensures UnitsOf(AddAll(cart, offer, qs), offer.product.id) == SumOf(qs)
  {
    var id, init, last := offer.product.id, qs[..|qs| - 1], qs[|qs| - 1];
    var prev := AddAll(cart, offer, init);
    assert AddAll(cart, offer, qs) == Add(prev, offer, last);
    assert SumOf(qs) == SumOf(init) + last;
    if |init| == 0 {
      assert prev == cart;
      UnitsOfZero(cart, id);
    } else {
      AddAllSums(cart, offer, init);
    }
    AddKeepsUnique(prev, offer, last);
    AddUnits(prev, offer, last);
    OneLineWith(Add(prev, offer, last), id);
  }

  lemma OneLineWith(cart: Cart, id: int)
    requires UniqueIds(cart) && HasId(cart, id)
    ensures LinesWith(cart, id) == 1
  {
    var k :| 0 <= k < |cart| && cart[k].Id() == id;
    LinesWithUnique(cart, k);
  }

  lemma {:induction false} UnitsOfZero(cart: Cart, id: int)
    requires !HasId(cart, id)
    ensures UnitsOf(cart, id) == 0
  {
    if |cart| > 0 {
      UnitsOfZero(cart[..|cart| - 1], id);
    }
  }

  /** Lines are keyed by id alone: re-adding a product in another size
      merges into the existing line, which keeps the size it was added with. */
  lemma SizeIsNotAKey(cart: Cart, offer: Offer, quantity: int, i: int)
    requires 0 <= i < |cart| && cart[i].Id() == offer.product.id
    requires offer.size != cart[i].size
    ensures |Add(cart, offer, quantity)| == |cart|
    ensures Add(cart, offer, quantity)[i].size == cart[i].size != offer.size
  {
  }

  /** Removing is idempotent and a no-op for an absent id. */
  lemma RemoveIdempotent(cart: Cart, id: int)
    ensures Remove(Remove(cart, id), id) == Remove(cart, id)
    ensures !HasId(cart, id) ==> Remove(cart, id) == cart
  {
    var p := (l: Line) => l.Id() != id;
    FilterAll(Remove(cart, id), p);
    if !HasId(cart, id) {
      FilterAll(cart, p);
    }
  }

  /** Removing a product takes exactly the amount of its lines off the
      total: the cart's total splits into the kept lines and the removed
      ones. */
  lemma {:induction false} RemoveTotal(cart: Cart, id: int)
    ensures Total(cart) == Total(Remove(cart, id)) + Total(Filter(cart, (l: Line) => l.Id() == id))
  {
    if |cart| > 0 {
      var head := cart[0];
      var rest := cart[1..];
      assert cart == [head] + rest;
      RemoveTotal(rest, id);
      TotalAppend([head], rest);
      var keep := (l: Line) => l.Id() != id;
      var drop := (l: Line) => l.Id() == id;
      TotalAppend(if keep(head) then [head] else [], Filter(rest, keep));
      TotalAppend(if drop(head) then [head] else [], Filter(rest, drop));
    }
  }

  /** Adding a product and then removing it leaves the cart as if it had only
      been removed: every other line is untouched by both. */
  lemma AddThenRemove(cart: Cart, offer: Offer, quantity: int)
    ensures Remove(Add(cart, offer, quantity), offer.product.id) == Remove(cart, offer.product.id)
  {
    var id := offer.product.id;
    var p := (l: Line) => l.Id() != id;
    var r := Add(cart, offer, quantity);
    if HasId(cart, id) {
      BumpRemove(cart, r, id, quantity);
    } else {
      FilterAppend(cart, [Line(offer.product, offer.size, quantity)], p);
      assert [Line(offer.product, offer.size, quantity)][1..] == [];
    }
  }

  lemma {:induction false} BumpRemove(cart: Cart, r: Cart, id: int, q: int)
    requires Bumped(cart, r, id, q)
    ensures Remove(r, id) == Remove(cart, id)
  {
    if |cart| > 0 {
      BumpRemove(cart[1..], r[1..], id, q);
    }
  }

  // ---------------------------------------------------------------------
  // Storage

  /** The storage key of the cart. */
  const CartKey: string := "cartItems"

  /** A stored value: a serialized cart, or some other text (such as the
      `"true"` the sign-in page stores under `rememberMe`). */
  datatype Stored = CartValue(lines: Cart) | Raw(text: string)

  /** The browser's key-value storage. */
  type Storage = map<string, Stored>

  /** `JSON.parse` of a text that is not a serialized cart. */
  datatype LoadError = Unparseable(text: string)

  /** The initial cart: the stored cart when the key holds one, the empty
      cart when the key is missing or empty, and the parse error (which the
      source does not catch) otherwise. */
  function Load(storage: Storage): (r: Result<Cart, LoadError>)
    ensures CartKey !in storage || storage[CartKey] == Raw("") ==> r == Ok([])
    ensures CartKey in storage && storage[CartKey].CartValue? ==> r == Ok(storage[CartKey].lines)
    ensures r.Err? <==> CartKey in storage && storage[CartKey].Raw? && storage[CartKey].text != ""
  {
    if CartKey !in storage then Ok([])
    else match storage[CartKey]
      case CartValue(lines) => Ok(lines)
      case Raw(text) => if text == "" then Ok([]) else Err(Unparseable(text))
  }

  /** `localStorage.setItem('cartItems', JSON.stringify(cart))` */
  function Save(storage: Storage, cart: Cart): (r: Storage)
    ensures forall k | k != CartKey :: (k in r <==> k in storage) && (k in storage ==> r[k] == storage[k])
  {
    storage[CartKey := CartValue(cart)]
  }

  /** What is saved is what is loaded back. */
  lemma LoadSave(storage: Storage, cart: Cart)
    ensures Load(Save(storage, cart)) == Ok(cart)
  {
  }

  /** The provider's state: the cart and the storage it is mirrored to. */
  datatype State = State(items: Cart, storage: Storage)

  /** The storage slot holds the current cart. */
  predicate Synced(s: State) {
    Load(s.storage) == Ok(s.items)
  }

  /** Every change of `cartItems` runs the effect that writes it back. */
  function Commit(s: State, items: Cart): (r: State)
    ensures Synced(r) && r.items == items
    ensures forall k | k != CartKey ::
      (k in r.storage <==> k in s.storage) && (k in s.storage ==> r.storage[k] == s.storage[k])
  {
    State(items, Save(s.storage, items))
  }

  /** Mounting the provider: load the cart (the parse error propagates), then
      the effect writes it back once. */
  function Mount(storage: Storage): (r: Result<State, LoadError>)
    ensures r.Ok? <==> Load(storage).Ok?
    ensures r.Ok? ==> Synced(r.value) && r.value.items == Load(storage).value
    ensures CartKey !in storage ==> r.Ok? && r.value.items == []
  {
    match Load(storage)
    case Err(e) => Err(e)
    case Ok(items) => Ok(Commit(State([], storage), items))
  }

  function AddToCart(s: State, offer: Offer, quantity: int): (r: State)
    ensures Synced(r) && r.items == Add(s.items, offer, quantity)
  {
    Commit(s, Add(s.items, offer, quantity))
  }

  function RemoveFromCart(s: State, id: int): (r: State)
    ensures Synced(r) && r.items == Remove(s.items, id)
  {
    Commit(s, Remove(s.items, id))
  }

  function ClearCart(s: State): (r: State)
    ensures Synced(r) && r.items == [] && Total(r.items) == 0.0
  {
    Commit(s, Clear())
  }

  /** Scenario: adding product 1 once and then twice more gives one line of
      three units. */
  lemma ScenarioRepeatAdd()
    ensures var o := Offer(Catalog[0], None, None);
      var c := Add(Add([], o, 1), o, 2);
      |c| == 1 && c[0].quantity == 3 && c[0].Id() == 1
  {
    var o := Offer(Catalog[0], None, None);
    var c1 := Add([], o, 1);
    assert c1 == [Line(Catalog[0], None, 1)];
    assert HasId(c1, 1);
  }
}
