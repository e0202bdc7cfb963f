/** The machine screen (src/pages/MachineDetails.tsx): the machine lookup
    with its not-found branch, the category tabs over the product catalog, the
    empty-list message and the floating cart bar. */
module MachineDetailsPage {
  import opened Wrappers
  import opened Types
  import opened CartStore
  import CartInvariants
  import ProductCard
  import Seqs

  /** `mockMachines.find(m => m.id === machineId)`. */
  function FindMachine(machines: seq<Machine>, id: MachineId): (r: Option<Machine>)
    ensures r.None? <==> forall i :: 0 <= i < |machines| ==> machines[i].id != id
    ensures r.Some? ==> exists i :: (0 <= i < |machines| && machines[i] == r.value && machines[i].id == id
      && forall j :: 0 <= j < i ==> machines[j].id != id)
    decreases |machines|
  {
    if machines == [] then None
    else if machines[0].id == id then Some(machines[0])
    else
      var r := FindMachine(machines[1..], id);
      assert forall i :: 0 <= i < |machines| - 1 ==> machines[1..][i] == machines[i + 1];
      r
  }

  /** The filter behind the product grid: this machine's products, narrowed to
      the active tab unless it is the 'all' tab. */
  predicate Listed(p: Product, machineId: MachineId, tab: Category) {
    p.machineId == machineId && (tab == AllCategory || p.category == tab)
  }

  /** `filteredProducts`. */
  function FilteredProducts(products: seq<Product>, machineId: MachineId, tab: Category): (r: seq<Product>)
    ensures Seqs.IsSubseq(r, products)
    ensures forall i :: 0 <= i < |r| ==> r[i].machineId == machineId
    ensures tab == AllCategory ==> forall p :: p in products && p.machineId == machineId ==> p in r
    ensures tab != AllCategory ==> forall i :: 0 <= i < |r| ==> r[i].category == tab
    ensures forall p :: p in products && Listed(p, machineId, tab) ==> p in r
    ensures forall p :: multiset(r)[p] == if Listed(p, machineId, tab) then multiset(products)[p] else 0
  {
    var keep := (p: Product) => Listed(p, machineId, tab);
    Seqs.FilterIsSubseq(products, keep);
    Seqs.FilterMultiset(products, keep);
    Seqs.Filter(products, keep)
  }

  /** A product whose own category is 'all' is listed only under the 'all'
      tab, since the other tabs compare categories literally. */
  lemma AllCategoryProductOnlyUnderAllTab(products: seq<Product>, machineId: MachineId, tab: Category, p: Product)
    requires p in FilteredProducts(products, machineId, tab)
    requires p.category == AllCategory
    ensures tab == AllCategory
  {
    var r := FilteredProducts(products, machineId, tab);
    var i :| 0 <= i < |r| && r[i] == p;
  }

  datatype Screen =
    | NotFound
    | Details(machine: Machine, products: seq<Product>, showNoProducts: bool, showCartBar: bool)

  /** The screen rendered for a route's machine id, active tab and cart. */
  function Render(machines: seq<Machine>, products: seq<Product>, machineId: MachineId, tab: Category, c: Cart): (r: Screen)
    ensures r.NotFound? <==> FindMachine(machines, machineId).None?
    ensures r.Details? ==> FindMachine(machines, machineId) == Some(r.machine)
    ensures r.Details? ==>
      r.machine.id == machineId
      && r.products == FilteredProducts(products, machineId, tab)
      && (r.showNoProducts <==> r.products == [])
      && (r.showCartBar <==> ItemCount(c.items) > 0)
  {
    match FindMachine(machines, machineId)
    case None => NotFound
    case Some(m) =>
      var listed := FilteredProducts(products, machineId, tab);
      Details(m, listed, |listed| == 0, ItemCount(c.items) > 0)
  }

  /** Under the cart's quantity invariant, the floating cart bar is shown
      exactly when the cart has items. */
  lemma CartBarIffItems(machines: seq<Machine>, products: seq<Product>, machineId: MachineId, tab: Category, c: Cart)
    requires ProductCard.InStock(c)
    requires Render(machines, products, machineId, tab, c).Details?
    ensures Render(machines, products, machineId, tab, c).showCartBar <==> c.items != []
  {
    CartInvariants.ItemCountPositive(c.items);
  }
}
