/** The invariants the cart store keeps from its initial state: no two items
    share a product id, the cart is empty exactly when it has no machine, and
    every item belongs to the cart's machine. They hold provided that machine
    ids are non-empty strings (an empty id is falsy in the source, so the
    affinity check would not see it). */
module CartInvariants {
  import opened Wrappers
  import opened Types
  import opened CartStore
  import Seqs

  predicate DistinctIds(items: seq<CartItem>) {
    forall i, j :: 0 <= i < j < |items| ==> items[i].product.id != items[j].product.id
  }

  predicate Valid(c: Cart) {
    && (c.items == [] <==> c.machineId == None)
    && (c.machineId.Some? ==> c.machineId.value != "")
    && DistinctIds(c.items)
    && (forall i :: 0 <= i < |c.items| ==> Some(c.items[i].product.machineId) == c.machineId)
  }

  /** One call into the store, as a value. */
  datatype CartOp =
    | Add(product: Product)
    | Remove(id: ProductId)
    | Update(id: ProductId, quantity: int)
    | Clear

  function Apply(c: Cart, op: CartOp): Cart {
    match op
    case Add(p) => AddItem(c, p)
    case Remove(id) => RemoveItem(c, id)
    case Update(id, q) => UpdateQuantity(c, id, q)
    case Clear => ClearCart(c)
  }

  /** The state after performing `ops` in order on a fresh store. */
  function Run(ops: seq<CartOp>): Cart
    decreases |ops|
  {
    if ops == [] then Initial else Apply(Run(ops[..|ops| - 1]), ops[|ops| - 1])
  }

  /** Every product added carries a non-empty machine id. */
  predicate NamedMachines(ops: seq<CartOp>) {
    forall i :: 0 <= i < |ops| && ops[i].Add? ==> ops[i].product.machineId != ""
  }

  lemma DistinctIdsAfterRemoval(items: seq<CartItem>, id: ProductId)
    requires DistinctIds(items)
    ensures DistinctIds(Without(items, id))
  {
    var before := (x: CartItem, y: CartItem) => x.product.id != y.product.id;
    assert Seqs.Pairwise(items, before);
    Seqs.FilterKeepsOrder(items, (item: CartItem) => item.product.id != id, before);
  }

  lemma AddItemKeepsValid(c: Cart, p: Product)
    requires Valid(c)
    requires p.machineId != ""
    ensures Valid(AddItem(c, p))
  {
    var r := AddItem(c, p);
    if !(HasMachine(c.machineId) && c.machineId.value != p.machineId) {
      if Contains(c.items, p.id) {
        assert forall i :: 0 <= i < |c.items| ==> r.items[i].product == c.items[i].product;
      } else {
        assert r.items == c.items + [CartItem(p, 1)];
        assert forall i :: 0 <= i < |c.items| ==> c.items[i].product.id != p.id;
      }
    }
  }

  lemma RemoveItemKeepsValid(c: Cart, id: ProductId)
    requires Valid(c)
    ensures Valid(RemoveItem(c, id))
  {
    var r := RemoveItem(c, id);
    DistinctIdsAfterRemoval(c.items, id);
    forall i | 0 <= i < |r.items|
      ensures Some(r.items[i].product.machineId) == r.machineId
    {
      assert r.items[i] in c.items;
    }
  }

  lemma UpdateQuantityKeepsValid(c: Cart, id: ProductId, quantity: int)
    requires Valid(c)
    ensures Valid(UpdateQuantity(c, id, quantity))
  {
    if quantity <= 0 {
      RemoveItemKeepsValid(c, id);
    } else {
      var r := UpdateQuantity(c, id, quantity);
      assert forall i :: 0 <= i < |c.items| ==> r.items[i].product == c.items[i].product;
    }
  }

  /** From the initial state, every sequence of store calls leaves the three
      invariants in place. */
  lemma {:induction false} RunValid(ops: seq<CartOp>)
    requires NamedMachines(ops)
    ensures Valid(Run(ops))
    decreases |ops|
  {
    if ops != [] {
      var prefix := ops[..|ops| - 1];
      assert NamedMachines(prefix) by {
        forall i | 0 <= i < |prefix| && prefix[i].Add?
          ensures prefix[i].product.machineId != ""
        {
          assert prefix[i] == ops[i];
        }
      }
      RunValid(prefix);
      var c := Run(prefix);
      match ops[|ops| - 1]
      case Add(p) => AddItemKeepsValid(c, p);
      case Remove(id) => RemoveItemKeepsValid(c, id);
      case Update(id, q) => UpdateQuantityKeepsValid(c, id, q);
      case Clear =>
    }
  }

  /** Adding a product that is not in the cart and then removing it restores
      the cart, provided no machine switch happened in between. */
  lemma AddThenRemove(c: Cart, p: Product)
    requires Valid(c)
    requires !Contains(c.items, p.id)
    requires c.machineId == None || c.machineId == Some(p.machineId)
    ensures RemoveItem(AddItem(c, p), p.id) == c
  {
    var keep := (item: CartItem) => item.product.id != p.id;
    Seqs.FilterAppend(c.items, [CartItem(p, 1)], keep);
    Seqs.FilterAllOrNone(c.items, keep);
    Seqs.FilterAllOrNone([CartItem(p, 1)], keep);
  }

  /** Setting the same quantity twice is the same as setting it once; in
      particular removing twice is removing once. */
  lemma UpdateQuantityIdempotent(c: Cart, id: ProductId, quantity: int)
    ensures UpdateQuantity(UpdateQuantity(c, id, quantity), id, quantity) == UpdateQuantity(c, id, quantity)
  {
    var once := UpdateQuantity(c, id, quantity);
    if quantity <= 0 {
      Seqs.FilterAllOrNone(once.items, (item: CartItem) => item.product.id != id);
    }
  }

  /** The empty-string machine id is treated exactly like null by `addItem`. */
  lemma EmptyMachineIdIsNoMachine(items: seq<CartItem>, p: Product)
    ensures AddItem(Cart(items, Some("")), p) == AddItem(Cart(items, None), p)
  {
  }

  /** Two item lists that differ only at position `k` differ in unit count by
      the change of quantity at `k`. */
  lemma {:induction false} ItemCountChangeAt(a: seq<CartItem>, b: seq<CartItem>, k: nat)
    requires |a| == |b| && k < |a|
    requires forall i :: 0 <= i < |a| && i != k ==> a[i] == b[i]
    ensures ItemCount(b) == ItemCount(a) - a[k].quantity + b[k].quantity
    decreases |a|
  {
    if k > 0 {
      ItemCountChangeAt(a[1..], b[1..], k - 1);
    } else {
      assert a[1..] == b[1..];
    }
  }

  /** The effect of `addItem` on `getItemCount` in each of its three branches
      (distinct ids make the increment touch one item only). */
  lemma AddItemCount(c: Cart, p: Product)
    requires Valid(c)
    ensures var r := AddItem(c, p);
      if HasMachine(c.machineId) && c.machineId.value != p.machineId then ItemCount(r.items) == 1
      else if Contains(c.items, p.id) then
        exists k :: 0 <= k < |c.items| && c.items[k].product.id == p.id
          && ItemCount(r.items) == ItemCount(c.items) - c.items[k].quantity + Min(c.items[k].quantity + 1, p.stock)
      else ItemCount(r.items) == ItemCount(c.items) + 1
  {
    var r := AddItem(c, p);
    if HasMachine(c.machineId) && c.machineId.value != p.machineId {
    } else if Contains(c.items, p.id) {
      var k :| 0 <= k < |c.items| && c.items[k].product.id == p.id;
      ItemCountChangeAt(c.items, r.items, k);
    } else {
      ItemCountAppend(c.items, [CartItem(p, 1)]);
    }
  }

  /** With every quantity at least 1, there are at least as many units as
      items, so the unit count is positive exactly when the cart has items. */
  lemma {:induction false} ItemCountPositive(items: seq<CartItem>)
    requires forall i :: 0 <= i < |items| ==> items[i].quantity >= 1
    ensures ItemCount(items) >= |items|
    ensures ItemCount(items) > 0 <==> items != []
    decreases |items|
  {
    if items != [] {
      ItemCountPositive(items[1..]);
    }
  }
}
