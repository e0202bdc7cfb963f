/** The cart store (src/store/cartStore.ts): the state `(items, machineId)`
    and the pure `state -> state` functions passed to zustand's `set`, plus the
    two derived sums. Persistence to browser storage is not modelled. */
module CartStore {
  import opened Wrappers
  import opened Types
  import Seqs

  datatype Cart = Cart(items: seq<CartItem>, machineId: Option<MachineId>)

  /** The store's initial state: no items, no machine. */
  const Initial := Cart([], None)

  function Min(a: int, b: int): int { if a <= b then a else b }

  /** JavaScript truthiness of `state.machineId`: null and the empty string are
      both falsy, so an empty id counts as "no machine". */
  predicate HasMachine(m: Option<MachineId>) {
    m.Some? && m.value != ""
  }

  predicate Contains(items: seq<CartItem>, id: ProductId) {
    exists i :: 0 <= i < |items| && items[i].product.id == id
  }

  /** `items.find(item => item.product.id === id)`: the first matching item. */
  function Find(items: seq<CartItem>, id: ProductId): (r: Option<CartItem>)
    ensures r.None? <==> !Contains(items, id)
    ensures r.Some? ==> exists i :: (0 <= i < |items| && items[i] == r.value && items[i].product.id == id
      && forall j :: 0 <= j < i ==> items[j].product.id != id)
    decreases |items|
  {
    if items == [] then None
    else if items[0].product.id == id then Some(items[0])
    else
      var r := Find(items[1..], id);
      assert forall j :: 0 <= j < |items| - 1 ==> items[1..][j] == items[j + 1];
      r
  }

  /** The items whose product id differs from `id`, in order. */
  function Without(items: seq<CartItem>, id: ProductId): seq<CartItem> {
    Seqs.Filter(items, (item: CartItem) => item.product.id != id)
  }

  /** The increment step of `addItem`: every item with the product's id gets
      `min(quantity + 1, product.stock)`, measured against the INCOMING product's
      stock, while the stored product record is kept. */
  function Increment(items: seq<CartItem>, p: Product): (r: seq<CartItem>)
    ensures |r| == |items|
  {
    seq(|items|, i requires 0 <= i < |items| =>
      if items[i].product.id == p.id
      then items[i].(quantity := Min(items[i].quantity + 1, p.stock))
      else items[i])
  }

  /** The positive branch of `updateQuantity`: every item with the id gets
      `min(quantity, its own stored stock)`. */
  function SetQuantity(items: seq<CartItem>, id: ProductId, quantity: int): (r: seq<CartItem>)
    requires quantity > 0
    ensures |r| == |items|
  {
    seq(|items|, i requires 0 <= i < |items| =>
      if items[i].product.id == id
      then items[i].(quantity := Min(quantity, items[i].product.stock))
      else items[i])
  }

  /** `addItem(product)`: machine-affinity reset, clamped increment, or append.
      A new item always starts at quantity 1, whatever the stock. */
  function AddItem(c: Cart, p: Product): (r: Cart)
    ensures r.machineId == Some(p.machineId)
    ensures HasMachine(c.machineId) && c.machineId.value != p.machineId ==>
      r.items == [CartItem(p, 1)]
    ensures !(HasMachine(c.machineId) && c.machineId.value != p.machineId) && Contains(c.items, p.id) ==>
      |r.items| == |c.items|
      && (forall i :: 0 <= i < |c.items| && c.items[i].product.id != p.id ==> r.items[i] == c.items[i])
      && (forall i :: 0 <= i < |c.items| && c.items[i].product.id == p.id ==>
            r.items[i].product == c.items[i].product
            && r.items[i].quantity == Min(c.items[i].quantity + 1, p.stock))
    ensures !(HasMachine(c.machineId) && c.machineId.value != p.machineId) && !Contains(c.items, p.id) ==>
      r.items == c.items + [CartItem(p, 1)]
  {
    if HasMachine(c.machineId) && c.machineId.value != p.machineId then
      Cart([CartItem(p, 1)], Some(p.machineId))
    else if Find(c.items, p.id).Some? then
      Cart(Increment(c.items, p), Some(p.machineId))
    else
      Cart(c.items + [CartItem(p, 1)], Some(p.machineId))
  }

  /** `removeItem(productId)`: drops every item with that id; the machine is
      reset to null exactly when nothing is left. */
  function RemoveItem(c: Cart, id: ProductId): (r: Cart)
    ensures !Contains(r.items, id)
    ensures Seqs.IsSubseq(r.items, c.items)
    ensures forall x :: x in c.items && x.product.id != id ==> x in r.items
    ensures forall x :: x in r.items ==> x in c.items
    ensures !Contains(c.items, id) ==> r.items == c.items
    ensures r.machineId == if r.items == [] then None else c.machineId
  {
    var rest := Without(c.items, id);
    Seqs.FilterIsSubseq(c.items, (item: CartItem) => item.product.id != id);
    Seqs.FilterAllOrNone(c.items, (item: CartItem) => item.product.id != id);
    Cart(rest, if |rest| > 0 then c.machineId else None)
  }

  /** `updateQuantity(productId, quantity)`: a quantity of zero or less removes
      the item (the same computation as `removeItem`); a positive one sets the
      matching item to `min(quantity, its stored stock)` and leaves the machine
      untouched. An absent id changes nothing. */
  function UpdateQuantity(c: Cart, id: ProductId, quantity: int): (r: Cart)
    ensures quantity <= 0 ==> r == RemoveItem(c, id)
    ensures quantity > 0 ==>
      r.machineId == c.machineId
      && |r.items| == |c.items|
      && (forall i :: 0 <= i < |c.items| && c.items[i].product.id != id ==> r.items[i] == c.items[i])
      && (forall i :: 0 <= i < |c.items| && c.items[i].product.id == id ==>
            r.items[i].product == c.items[i].product
            && r.items[i].quantity == Min(quantity, c.items[i].product.stock))
    ensures !Contains(c.items, id) ==> r.items == c.items
  {
    if quantity <= 0 then
      var rest := Without(c.items, id);
      Cart(rest, if |rest| > 0 then c.machineId else None)
    else
      Cart(SetQuantity(c.items, id, quantity), c.machineId)
  }

  /** `clearCart()`: back to the initial state. */
  function ClearCart(c: Cart): (r: Cart)
    ensures r.items == [] && r.machineId == None
    ensures r == Initial
  {
    Cart([], None)
  }

  /** Σ price × quantity over the items, in cents. */
  function Total(items: seq<CartItem>): nat
    decreases |items|
  {
    if items == [] then 0 else items[0].product.price * items[0].quantity + Total(items[1..])
  }

  /** Σ quantity over the items: the number of units, not of distinct products. */
  function ItemCount(items: seq<CartItem>): nat
    decreases |items|
  {
    if items == [] then 0 else items[0].quantity + ItemCount(items[1..])
  }

  lemma {:induction false} TotalAppend(a: seq<CartItem>, b: seq<CartItem>)
    ensures Total(a + b) == Total(a) + Total(b)
    decreases |a|
  {
    if a != [] {
      TotalAppend(a[1..], b);
      assert (a + b)[0] == a[0];
      assert (a + b)[1..] == a[1..] + b;
    } else {
      assert a + b == b;
    }
  }

  lemma {:induction false} ItemCountAppend(a: seq<CartItem>, b: seq<CartItem>)
    ensures ItemCount(a + b) == ItemCount(a) + ItemCount(b)
    decreases |a|
  {
    if a != [] {
      ItemCountAppend(a[1..], b);
      assert (a + b)[0] == a[0];
      assert (a + b)[1..] == a[1..] + b;
    } else {
      assert a + b == b;
    }
  }

  /** `getTotal()`: the `reduce` from the left, starting at 0. */
  method GetTotal(c: Cart) returns (total: nat)
    ensures total == Total(c.items)
    ensures c.items == [] ==> total == 0
  {
    total := 0;
    var i := 0;
    while i < |c.items|
      invariant 0 <= i <= |c.items|
      invariant total == Total(c.items[..i])
    {
      var item := c.items[i];
      TotalAppend(c.items[..i], [item]);
      assert c.items[..i + 1] == c.items[..i] + [item];
      total := total + item.product.price * item.quantity;
      i := i + 1;
    }
    assert c.items[..i] == c.items;
  }

  /** `getItemCount()`: the `reduce` from the left, starting at 0. */
  method GetItemCount(c: Cart) returns (count: nat)
    ensures count == ItemCount(c.items)
    ensures c.items == [] ==> count == 0
  {
    count := 0;
    var i := 0;
    while i < |c.items|
      invariant 0 <= i <= |c.items|
      invariant count == ItemCount(c.items[..i])
    {
      var item := c.items[i];
      ItemCountAppend(c.items[..i], [item]);
      assert c.items[..i + 1] == c.items[..i] + [item];
      count := count + item.quantity;
      i := i + 1;
    }
    assert c.items[..i] == c.items;
  }
}
