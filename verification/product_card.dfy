/** The product tile (src/components/ProductCard.tsx): the stock guard in
    front of `addItem`, the quantity it displays, the Add button versus the
    -/+ stepper, and the stock badge. Toasts are reduced to the one flag that
    decides whether the "Removed" toast fires. */
module ProductCard {
  import opened Types
  import opened CartStore
  import Text

  /** `cartItem?.quantity || 0`: the first matching item's quantity, or 0. */
  function DisplayedQuantity(c: Cart, p: Product): (q: nat)
    ensures !Contains(c.items, p.id) ==> q == 0
    ensures Contains(c.items, p.id) ==>
      exists i :: 0 <= i < |c.items| && c.items[i].product.id == p.id && q == c.items[i].quantity
        && forall j :: 0 <= j < i ==> c.items[j].product.id != p.id
  {
    match Find(c.items, p.id)
    case Some(item) => item.quantity
    case None => 0
  }

  predicate IsOutOfStock(p: Product) { p.stock == 0 }

  /** `handleAddToCart`: an out-of-stock product never reaches the store. */
  function HandleAddToCart(c: Cart, p: Product): (r: Cart)
    ensures IsOutOfStock(p) ==> r == c
    ensures !IsOutOfStock(p) ==> r == AddItem(c, p)
  {
    if IsOutOfStock(p) then c else AddItem(c, p)
  }

  datatype UpdateOutcome = UpdateOutcome(cart: Cart, removedToast: bool)

  /** `handleUpdateQuantity(newQuantity)`: forwards to the store and raises the
      "Removed" toast exactly when the new quantity is 0. */
  function HandleUpdateQuantity(c: Cart, p: Product, newQuantity: int): (r: UpdateOutcome)
    ensures r.cart == UpdateQuantity(c, p.id, newQuantity)
    ensures r.removedToast <==> newQuantity == 0
  {
    UpdateOutcome(UpdateQuantity(c, p.id, newQuantity), newQuantity == 0)
  }

  /** What the tile shows under the price. */
  datatype Controls =
    | AddButton(disabled: bool)
    | QuantityStepper(quantity: nat, plusDisabled: bool)

  /** The Add button while the product is not in the cart (disabled when out
      of stock); otherwise the stepper, whose + is disabled at the stock. */
  function ControlsFor(c: Cart, p: Product): (r: Controls)
    ensures r.AddButton? <==> DisplayedQuantity(c, p) == 0
    ensures r.AddButton? ==> (r.disabled <==> IsOutOfStock(p))
    ensures r.QuantityStepper? ==>
      r.quantity == DisplayedQuantity(c, p) && (r.plusDisabled <==> r.quantity >= p.stock)
  {
    var q := DisplayedQuantity(c, p);
    if q == 0 then AddButton(IsOutOfStock(p)) else QuantityStepper(q, q >= p.stock)
  }

  /** The stepper's minus button (only present while the quantity is positive). */
  function PressMinus(c: Cart, p: Product): (r: UpdateOutcome)
    requires DisplayedQuantity(c, p) > 0
    ensures r.removedToast <==> DisplayedQuantity(c, p) == 1
    ensures DisplayedQuantity(c, p) == 1 ==> r.cart == RemoveItem(c, p.id)
    ensures DisplayedQuantity(c, p) >= 2 ==> r.cart == UpdateQuantity(c, p.id, DisplayedQuantity(c, p) - 1)
  {
    HandleUpdateQuantity(c, p, DisplayedQuantity(c, p) - 1)
  }

  /** The stepper's plus button; a disabled button does nothing. */
  function PressPlus(c: Cart, p: Product): (r: Cart)
    requires DisplayedQuantity(c, p) > 0
    ensures DisplayedQuantity(c, p) >= p.stock ==> r == c
    ensures DisplayedQuantity(c, p) < p.stock ==> r == UpdateQuantity(c, p.id, DisplayedQuantity(c, p) + 1)
  {
    var q := DisplayedQuantity(c, p);
    if q >= p.stock then c else HandleUpdateQuantity(c, p, q + 1).cart
  }

  /** Pressing minus at quantity 1 takes the product out of the cart. */
  lemma MinusAtOneRemoves(c: Cart, p: Product)
    requires DisplayedQuantity(c, p) == 1
    ensures !Contains(PressMinus(c, p).cart.items, p.id)
    ensures DisplayedQuantity(PressMinus(c, p).cart, p) == 0
    ensures PressMinus(c, p).removedToast
  {
  }

  datatype Tone = Red | Amber | Emerald

  datatype Badge = Badge(tone: Tone, text: string)

  /** The stock badge: red "Out of Stock" at 0, amber "N left" for 1 to 5,
      emerald "N left" above 5. */
  function StockBadge(stock: nat): (b: Badge)
    ensures b.tone == Red <==> stock == 0
    ensures b.tone == Amber <==> 1 <= stock <= 5
    ensures b.tone == Emerald <==> stock > 5
    ensures stock == 0 ==> b.text == "Out of Stock"
    ensures stock > 0 ==> b.text == Text.DecimalString(stock) + " left"
  {
    var tone := if stock <= 5 && stock > 0 then Amber else if stock > 5 then Emerald else Red;
    Badge(tone, if stock == 0 then "Out of Stock" else Text.DecimalString(stock) + " left")
  }

  /** Every cart quantity lies in [1, stock]. */
  predicate InStock(c: Cart) {
    forall i :: 0 <= i < |c.items| ==> 1 <= c.items[i].quantity <= c.items[i].product.stock
  }

  /** Each product id carries one stock figure, given by `stockOf`. */
  predicate StocksFrom(c: Cart, stockOf: ProductId -> nat) {
    forall i :: 0 <= i < |c.items| ==> c.items[i].product.stock == stockOf(c.items[i].product.id)
  }

  /** A user action on a product tile or on the cart screen. */
  datatype UiAction =
    | TapAdd(product: Product)
    | TapMinus(product: Product)
    | TapPlus(product: Product)
    | CartUpdate(id: ProductId, quantity: int)
    | CartRemove(id: ProductId)
    | CartClear

  function Perform(c: Cart, a: UiAction): Cart {
    match a
    case TapAdd(p) => HandleAddToCart(c, p)
    case TapMinus(p) => if DisplayedQuantity(c, p) > 0 then PressMinus(c, p).cart else c
    case TapPlus(p) => if DisplayedQuantity(c, p) > 0 then PressPlus(c, p) else c
    case CartUpdate(id, q) => UpdateQuantity(c, id, q)
    case CartRemove(id) => RemoveItem(c, id)
    case CartClear => ClearCart(c)
  }

  /** The products the actions carry agree with `stockOf`. */
  predicate ActionStock(a: UiAction, stockOf: ProductId -> nat) {
    (a.TapAdd? || a.TapMinus? || a.TapPlus?) ==> a.product.stock == stockOf(a.product.id)
  }

  lemma RemoveKeepsInStock(c: Cart, id: ProductId, stockOf: ProductId -> nat)
    requires InStock(c) && StocksFrom(c, stockOf)
    ensures InStock(RemoveItem(c, id)) && StocksFrom(RemoveItem(c, id), stockOf)
  {
    var r := RemoveItem(c, id);
    forall i | 0 <= i < |r.items|
      ensures 1 <= r.items[i].quantity <= r.items[i].product.stock
      ensures r.items[i].product.stock == stockOf(r.items[i].product.id)
    {
      assert r.items[i] in c.items;
    }
  }

  /** The store's own clamp keeps an in-stock cart in stock under any
      `updateQuantity`, because a positive request is cut to the stored stock,
      which is at least 1 for every item already there. */
  lemma UpdateKeepsInStock(c: Cart, id: ProductId, q: int, stockOf: ProductId -> nat)
    requires InStock(c) && StocksFrom(c, stockOf)
    ensures InStock(UpdateQuantity(c, id, q)) && StocksFrom(UpdateQuantity(c, id, q), stockOf)
  {
    if q <= 0 {
      RemoveKeepsInStock(c, id, stockOf);
    }
  }

  /** The stock-0 guard is what keeps `addItem` from creating an item whose
      quantity 1 exceeds its stock. */
  lemma AddKeepsInStock(c: Cart, p: Product, stockOf: ProductId -> nat)
    requires InStock(c) && StocksFrom(c, stockOf)
    requires p.stock == stockOf(p.id)
    ensures InStock(HandleAddToCart(c, p)) && StocksFrom(HandleAddToCart(c, p), stockOf)
  {
    if !IsOutOfStock(p) {
      var r := AddItem(c, p);
      if !(HasMachine(c.machineId) && c.machineId.value != p.machineId) && !Contains(c.items, p.id) {
        assert r.items == c.items + [CartItem(p, 1)];
      }
    }
  }

  /** Without the guard the invariant fails: adding a product with no stock
      to an empty cart stores quantity 1 against stock 0. */
  lemma UnguardedAddBreaksInStock(p: Product)
    requires p.stock == 0
    ensures !InStock(AddItem(Initial, p))
  {
    assert AddItem(Initial, p).items[0] == CartItem(p, 1);
  }

  lemma PerformKeepsInStock(c: Cart, a: UiAction, stockOf: ProductId -> nat)
    requires InStock(c) && StocksFrom(c, stockOf)
    requires ActionStock(a, stockOf)
    ensures InStock(Perform(c, a)) && StocksFrom(Perform(c, a), stockOf)
  {
    match a
    case TapAdd(p) => AddKeepsInStock(c, p, stockOf);
    case TapMinus(p) =>
      if DisplayedQuantity(c, p) > 0 {
        UpdateKeepsInStock(c, p.id, DisplayedQuantity(c, p) - 1, stockOf);
      }
    case TapPlus(p) =>
      if DisplayedQuantity(c, p) > 0 && DisplayedQuantity(c, p) < p.stock {
        UpdateKeepsInStock(c, p.id, DisplayedQuantity(c, p) + 1, stockOf);
      }
    case CartUpdate(id, q) => UpdateKeepsInStock(c, id, q, stockOf);
    case CartRemove(id) => RemoveKeepsInStock(c, id, stockOf);
    case CartClear =>
  }

  /** The cart after a session of user actions on a fresh store. */
  function Session(actions: seq<UiAction>): Cart
    decreases |actions|
  {
    if actions == [] then Initial
    else Perform(Session(actions[..|actions| - 1]), actions[|actions| - 1])
  }

  /** With the stock-0 guard, and each product id always carrying the same
      stock, every cart quantity stays in [1, stock] throughout a session. */
  lemma {:induction false} SessionKeepsInStock(actions: seq<UiAction>, stockOf: ProductId -> nat)
    requires forall i :: 0 <= i < |actions| ==> ActionStock(actions[i], stockOf)
    ensures InStock(Session(actions)) && StocksFrom(Session(actions), stockOf)
    decreases |actions|
  {
    if actions != [] {
      var prefix := actions[..|actions| - 1];
      assert forall i :: 0 <= i < |prefix| ==> prefix[i] == actions[i];
      SessionKeepsInStock(prefix, stockOf);
      PerformKeepsInStock(Session(prefix), actions[|actions| - 1], stockOf);
    }
  }
}
