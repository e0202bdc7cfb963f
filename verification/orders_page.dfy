/** The order-history screen (src/pages/Orders.tsx): the All / Completed /
    Failed filter and the status badge lookup. */
module OrdersPage {
  import opened Types
  import Seqs

  datatype OrderFilter = AllOrders | CompletedOrders | FailedOrders

  /** The predicate handed to `mockOrders.filter`. */
  predicate Keeps(f: OrderFilter, o: Order) {
    match f
    case AllOrders => true
    case CompletedOrders => o.status == Completed
    case FailedOrders => o.status == Failed
  }

  /** `filteredOrders`: an order-preserving selection of the history. */
  function FilteredOrders(orders: seq<Order>, f: OrderFilter): (r: seq<Order>)
    ensures Seqs.IsSubseq(r, orders)
    ensures f == AllOrders ==> r == orders
    ensures f == CompletedOrders ==>
      (forall i :: 0 <= i < |r| ==> r[i].status == Completed)
      && (forall o :: o in orders && o.status == Completed ==> o in r)
    ensures f == FailedOrders ==>
      (forall i :: 0 <= i < |r| ==> r[i].status == Failed)
      && (forall o :: o in orders && o.status == Failed ==> o in r)
    ensures forall o :: multiset(r)[o] == if Keeps(f, o) then multiset(orders)[o] else 0
  {
    var keep := (o: Order) => Keeps(f, o);
    var r := Seqs.Filter(orders, keep);
    assert Seqs.IsSubseq(r, orders) by { Seqs.FilterIsSubseq(orders, keep); }
    assert forall o :: multiset(r)[o] == if Keeps(f, o) then multiset(orders)[o] else 0 by {
      Seqs.FilterMultiset(orders, keep);
    }
    assert f == AllOrders ==> r == orders by { Seqs.FilterAllOrNone(orders, keep); }
    r
  }

  /** No order is listed under both Completed and Failed, and both lists are
      subsequences of the All list. */
  lemma CompletedAndFailedDisjoint(orders: seq<Order>)
    ensures forall o :: o in FilteredOrders(orders, CompletedOrders) ==> o !in FilteredOrders(orders, FailedOrders)
    ensures Seqs.IsSubseq(FilteredOrders(orders, CompletedOrders), FilteredOrders(orders, AllOrders))
    ensures Seqs.IsSubseq(FilteredOrders(orders, FailedOrders), FilteredOrders(orders, AllOrders))
  {
    var completed := FilteredOrders(orders, CompletedOrders);
    var failed := FilteredOrders(orders, FailedOrders);
    forall o | o in completed
      ensures o !in failed
    {
      var i :| 0 <= i < |completed| && completed[i] == o;
      assert o.status != Failed;
    }
  }

  datatype StatusBadge = StatusBadge(caption: string, cssClass: string)

  /** `statusConfig[order.status]`: one entry per order status, so the lookup
      never misses. */
  function StatusBadgeFor(s: OrderStatus): (b: StatusBadge)
    ensures b.caption != ""
  {
    match s
    case Pending => StatusBadge("Pending", "bg-amber-100 text-amber-700")
    case Confirmed => StatusBadge("Confirmed", "bg-primary/10 text-primary")
    case Preparing => StatusBadge("Preparing", "bg-primary/10 text-primary")
    case Dispensing => StatusBadge("Dispensing", "bg-primary/10 text-primary")
    case Ready => StatusBadge("Ready", "bg-secondary/10 text-secondary")
    case Completed => StatusBadge("Completed", "bg-secondary/10 text-secondary")
    case Failed => StatusBadge("Failed", "bg-destructive/10 text-destructive")
  }

  /** Each of the seven statuses gets its own caption. */
  lemma StatusCaptionsDistinct(s: OrderStatus, t: OrderStatus)
    requires StatusBadgeFor(s).caption == StatusBadgeFor(t).caption
    ensures s == t
  {
  }
}
