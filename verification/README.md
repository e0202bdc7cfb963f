# Vending storefront cart and order-progress model

A Dafny model of the logic of a mobile vending-machine storefront. The model covers:

- the **cart store**: a `(items, machineId)` state with `addItem`, `removeItem`, `updateQuantity`, `clearCart`, `getTotal` and `getItemCount`;
- the **order-progress simulation** of the order-status screen: a step counter, a countdown, `formatTime` and the status messages;
- the **order stepper's** step classification;
- the **product tile's** guards in front of the cart;
- the list logic of the **Orders**, **Search**, **Machine details** and **Home** screens.

Every operation is a pure function over immutable datatypes. The two `reduce` sums are also written as loops (`GetTotal`, `GetItemCount`) and proved equal to their Σ definitions. Timers are modelled as explicit ticks, and user sessions as sequences of actions.

Modules, one per source component:

| module | file | models |
|---|---|---|
| `Types` | types.dfy | the records of `src/types/index.ts` |
| `CartStore` | cart_store.dfy | `src/store/cartStore.ts` |
| `CartInvariants` | cart_invariants.dfy | the invariants the store keeps from its initial state |
| `OrderProgress` | order_progress.dfy | `src/pages/OrderStatus.tsx` |
| `OrderStepper` | order_stepper.dfy | `src/components/OrderStepper.tsx` |
| `ProductCard` | product_card.dfy | `src/components/ProductCard.tsx` and the session-wide stock invariant |
| `OrdersPage`, `SearchPage`, `MachineDetailsPage`, `HomePage` | *_page.dfy, machine_details.dfy | the four list screens |
| `Seqs`, `Text`, `Wrappers` | seqs.dfy, text.dfy, wrappers.dfy | `Array.filter`, `toLowerCase`/`includes`/`padStart`/number-to-string, `Option` |

Representation choices:

- Prices are integer cents.
- Stock and quantities are naturals; `updateQuantity`'s argument is an integer.
- A machine's distance is an exact `real`.
- The nullable machine id is an `Option<string>`. The source tests it for truthiness, so `HasMachine` treats `Some("")` like `None`.

Behaviour is kept as the code has it, including where it is looser than one might expect:

- **Quantity range.** The store alone does not keep every cart quantity in `[1, stock]`:
  - a new item gets quantity 1 with no stock clamp (`ProductCard.UnguardedAddBreaksInStock`);
  - a positive `updateQuantity` on a stock-0 item stores 0.

  The range holds only together with the product tile's stock-0 guard, and only if each product id always carries the same stock (`ProductCard.SessionKeepsInStock`).
- **Increment clamp.** The increment in `addItem` is clamped against the incoming product's stock, but the stored product record is kept.
- **Machine id on update.** The positive branch of `updateQuantity` returns no `machineId`. zustand's `set` merges partial states, so the machine id is kept.

## Model

| member | source | states |
|---|---|---|
| CartStore.Find | src/store/cartStore.ts:32-34 | `items.find` by product id gives nothing exactly when no item has the id, and otherwise the first item that has it |
| CartStore.AddItem | src/store/cartStore.ts:22-52 | The cart's machine always becomes the product's machine. If another (truthy) machine is active, the cart becomes exactly `[(product, 1)]`. If the product is already present, length and order are kept, other items are untouched, and matching items keep their stored product and get `min(q+1, product.stock)`. Otherwise `(product, 1)` is appended after the untouched old items. |
| CartStore.RemoveItem | src/store/cartStore.ts:54-64 | No item with the id remains. The result is an order-preserving subsequence that keeps every other item. An absent id leaves the items unchanged. The machine becomes null exactly when the result is empty. |
| CartStore.UpdateQuantity | src/store/cartStore.ts:66-86 | A quantity ≤ 0 gives the same state as `removeItem`. A positive quantity keeps length, order, other items and the machine, and sets matching items to `min(q, stored stock)`. An absent id changes no item. |
| CartStore.ClearCart | src/store/cartStore.ts:88 | The result is the initial state (no items, null machine), so clearing is idempotent |
| CartStore.GetTotal | src/store/cartStore.ts:90-96 | The left-to-right `reduce` equals Σ price×quantity, and is 0 on an empty cart |
| CartStore.GetItemCount | src/store/cartStore.ts:98-101 | The left-to-right `reduce` equals Σ quantity, and is 0 on an empty cart |
| CartStore.TotalAppend | src/store/cartStore.ts:92-95 | The total of two concatenated item lists is the sum of their totals |
| CartStore.ItemCountAppend | src/store/cartStore.ts:100 | The unit count of two concatenated item lists is the sum of their counts |
| CartInvariants.DistinctIdsAfterRemoval | src/store/cartStore.ts:56-58 | Filtering out an id keeps product ids pairwise distinct |
| CartInvariants.AddItemKeepsValid | src/store/cartStore.ts:22-52 | For a product with a non-empty machine id, `addItem` preserves distinct ids, "empty ⇔ no machine", and every item's machine equals the cart's |
| CartInvariants.RemoveItemKeepsValid | src/store/cartStore.ts:54-64 | `removeItem` preserves the three cart invariants |
| CartInvariants.UpdateQuantityKeepsValid | src/store/cartStore.ts:66-86 | `updateQuantity` preserves the three cart invariants, for any quantity |
| CartInvariants.RunValid | src/store/cartStore.ts:19-88 | From the initial state, any sequence of store calls keeps the three invariants, provided every added product has a non-empty machine id |
| CartInvariants.AddThenRemove | src/store/cartStore.ts:47-63 | Adding an absent product of the cart's machine (or to an empty cart) and then removing it restores the cart exactly |
| CartInvariants.UpdateQuantityIdempotent | src/store/cartStore.ts:66-86 | Applying the same `updateQuantity` twice equals applying it once |
| CartInvariants.EmptyMachineIdIsNoMachine | src/store/cartStore.ts:25 | `addItem` on a cart whose machine id is `""` behaves exactly as on a cart with a null machine |
| CartInvariants.ItemCountChangeAt | src/store/cartStore.ts:98-101 | Item lists that differ at one position differ in unit count by the change of quantity there |
| CartInvariants.AddItemCount | src/store/cartStore.ts:22-52 | Effect of `addItem` on `getItemCount`: a machine switch gives 1; an existing product changes the count by `min(q+1, stock) − q`; a new product adds 1 |
| CartInvariants.ItemCountPositive | src/store/cartStore.ts:98-101 | When every quantity is at least 1, the unit count is at least the number of items, so it is positive exactly when there are items |
| OrderProgress.TickStep | src/pages/OrderStatus.tsx:26-29 | The step never decreases and grows by at most 1. It grows exactly when it is below 4. Steps in [1,4] stay in [1,4]. |
| OrderProgress.TickCountdown | src/pages/OrderStatus.tsx:33 | A tick lowers a positive countdown by exactly 1 and turns any count ≤ 0 into 0, so the countdown is never negative and never grows from a non-negative value. |
| OrderProgress.OnStepTimer | src/pages/OrderStatus.tsx:25-30 | The step timer sets the step to one tick of the step alone, never lowering it, and leaves the countdown unchanged: the step does not read or change the countdown |
| OrderProgress.OnCountdownTimer | src/pages/OrderStatus.tsx:32-34 | The countdown timer sets the countdown to one tick of the countdown alone, keeping it non-negative, and leaves the step unchanged: the countdown does not read or change the step |
| OrderProgress.TimersCommute | src/pages/OrderStatus.tsx:25-34 | The two timers' firings commute |
| OrderProgress.StepAfterClosedForm | src/pages/OrderStatus.tsx:26-29 | `k` step ticks from any step ≤ 4 give `min(step + k, 4)` |
| OrderProgress.ReadyOnThirdTick | src/pages/OrderStatus.tsx:19-29 | From the initial step 1, every reachable step lies in [1,4]. The step is 4 exactly from the 3rd tick on, and it never decreases. |
| OrderProgress.CountdownAfterClosedForm | src/pages/OrderStatus.tsx:33 | `n` countdown ticks from a non-negative count give `max(count − n, 0)` |
| OrderProgress.CountdownFromStart | src/pages/OrderStatus.tsx:20-33 | From 300 the countdown is never negative, and it is 0 exactly from the 300th tick on |
| OrderProgress.ConfettiFiresOnce | src/pages/OrderStatus.tsx:42-47 | The confetti effect runs on step changes and switches on at step 4, so over the run it fires on the 3rd step tick and on no other |
| OrderProgress.FormatTime | src/pages/OrderStatus.tsx:49-53 | "m:ss": the decimal minutes `s div 60`, a colon, then exactly two digits whose value is `s mod 60` |
| OrderProgress.FormatTimeRoundTrip | src/pages/OrderStatus.tsx:49-53 | Parsing the formatted minutes and seconds back as m×60+ss recovers `s` |
| OrderProgress.FormatTimeAtStart | src/pages/OrderStatus.tsx:49-53 | 300 seconds show as "5:00" |
| OrderProgress.FormatTimeAtZero | src/pages/OrderStatus.tsx:49-53 | 0 seconds show as "0:00" |
| OrderProgress.StatusMessageFor | src/pages/OrderStatus.tsx:55-62 | The `statusMessages` lookup is defined exactly for steps 1 to 4 |
| OrderProgress.StatusMessageDefined | src/pages/OrderStatus.tsx:55-62 | Every step the simulation reaches has a status message |
| OrderStepper.PhaseOf | src/components/OrderStepper.tsx:35-37 | Each step is exactly one of completed (`id < current`), active (`id = current`) or pending (`id > current`) |
| OrderStepper.CircleIcon | src/components/OrderStepper.tsx:55-65 | Completed steps show the check icon; active and pending steps show their own icon |
| OrderStepper.LabelClass | src/components/OrderStepper.tsx:72-75 | The label is highlighted exactly when the step is active |
| OrderStepper.Render | src/components/OrderStepper.tsx:34-81 | One view per step, in order, carrying that step's phase, icon and label class |
| OrderStepper.AtMostOneActive | src/components/OrderStepper.tsx:36 | With distinct step ids, no two rendered steps are active |
| OrderStepper.OrderStepsPhases | src/components/OrderStepper.tsx:35-37 | For a current step in 1..4, the four order steps are a completed prefix, one active step, and a pending suffix |
| OrderStepper.ReadyView | src/components/OrderStepper.tsx:35-37 | At step 4, steps 1-3 are completed with check icons, step 4 is active with its package icon and highlighted label, and none is pending |
| ProductCard.DisplayedQuantity | src/components/ProductCard.tsx:16-17 | The displayed quantity is 0 when the product id is not in the cart, and otherwise the first matching item's quantity |
| ProductCard.HandleAddToCart | src/components/ProductCard.tsx:20-27 | A stock-0 product leaves the cart unchanged; any other product goes to `addItem` |
| ProductCard.HandleUpdateQuantity | src/components/ProductCard.tsx:29-34 | The tile forwards to `updateQuantity`, and the "Removed" toast fires exactly when the new quantity is 0 |
| ProductCard.ControlsFor | src/components/ProductCard.tsx:106-138 | The Add button shows exactly when the displayed quantity is 0, and is disabled exactly when out of stock. Otherwise the stepper shows that quantity, with + disabled exactly when quantity ≥ stock. |
| ProductCard.PressMinus | src/components/ProductCard.tsx:121 | Minus raises the "Removed" toast exactly at quantity 1, where the cart becomes `removeItem(id)`; from quantity 2 up the cart becomes `updateQuantity(id, quantity − 1)` |
| ProductCard.PressPlus | src/components/ProductCard.tsx:131-132 | Plus does nothing at or above the stock, and otherwise requests quantity + 1 |
| ProductCard.MinusAtOneRemoves | src/components/ProductCard.tsx:29-34 | Minus at quantity 1 removes the product (displayed quantity 0 afterwards) and fires the toast |
| ProductCard.StockBadge | src/components/ProductCard.tsx:60-69 | Stock 0 gives red "Out of Stock", 1-5 gives amber "N left", and more than 5 gives emerald "N left". Exactly one tone applies. |
| ProductCard.RemoveKeepsInStock | src/store/cartStore.ts:54-64 | `removeItem` keeps every quantity in [1, stock] and every stock consistent with the catalog |
| ProductCard.UpdateKeepsInStock | src/store/cartStore.ts:78-84 | Any `updateQuantity` keeps every quantity in [1, stock], because positive requests are clamped to a stock that is already ≥ 1 |
| ProductCard.AddKeepsInStock | src/components/ProductCard.tsx:20-22 | Behind the stock-0 guard, `addItem` keeps every quantity in [1, stock] |
| ProductCard.UnguardedAddBreaksInStock | src/store/cartStore.ts:47-50 | Without the guard, adding a stock-0 product to an empty cart stores quantity 1 against stock 0 |
| ProductCard.PerformKeepsInStock | src/components/ProductCard.tsx:20-34 | Every tile or cart-screen action keeps every quantity in [1, stock] |
| ProductCard.SessionKeepsInStock | src/components/ProductCard.tsx:20-22 | With the guard, and each product id always carrying the same stock, every quantity stays in [1, stock] over any session of actions |
| OrdersPage.FilteredOrders | src/pages/Orders.tsx:20-25 | 'all' returns the orders unchanged. 'completed' and 'failed' return an order-preserving subsequence that holds exactly the orders with that status. Every copy of a kept order survives and no copy of a dropped one does, which with the subsequence fixes the result. |
| OrdersPage.CompletedAndFailedDisjoint | src/pages/Orders.tsx:20-25 | No order is listed under both 'completed' and 'failed', and each list is a subsequence of the 'all' list |
| OrdersPage.StatusBadgeFor | src/pages/Orders.tsx:27-35 | Every one of the seven order statuses has a badge with a non-empty caption |
| OrdersPage.StatusCaptionsDistinct | src/pages/Orders.tsx:27-35 | Different statuses get different captions |
| SearchPage.FilteredMachines | src/pages/Search.tsx:20-29 | The result is an order-preserving subsequence of the catalog. A machine is in it iff its lower-cased name, location or address includes the lower-cased query AND the status filter is null or equal to its status. With a filter, every result has that status. Each matching machine appears as often as in the catalog, and non-matching ones not at all. |
| SearchPage.KeptIffOccurs | src/pages/Search.tsx:21-29 | A machine is kept iff the lower-cased query occurs at some position of its lower-cased name, location or address, and its status passes the filter |
| SearchPage.EmptySearchListsAll | src/pages/Search.tsx:21-26 | An empty query with a null filter returns the whole catalog |
| SearchPage.CountText | src/pages/Search.tsx:78 | The count reads "1 machine found" exactly for one result, and "N machines found" otherwise |
| MachineDetailsPage.FindMachine | src/pages/MachineDetails.tsx:18 | The lookup fails exactly when no machine has the id, and otherwise returns the first catalog machine with that id, as `find` does |
| MachineDetailsPage.FilteredProducts | src/pages/MachineDetails.tsx:42-45 | The result is an order-preserving subsequence in which every product has the route's machine id. The 'all' tab lists every product of the machine; any other tab lists only that category. Every listed product keeps its catalog multiplicity and no other product appears. |
| MachineDetailsPage.AllCategoryProductOnlyUnderAllTab | src/pages/MachineDetails.tsx:44 | A product whose own category is 'all' appears only under the 'all' tab |
| MachineDetailsPage.Render | src/pages/MachineDetails.tsx:18-165 | An unknown machine id gives the not-found screen before any filtering. Otherwise the screen shows exactly the machine the first-match lookup returned, "No products" shows iff the filtered list is empty, and the cart bar shows iff `getItemCount() > 0`. |
| MachineDetailsPage.CartBarIffItems | src/pages/MachineDetails.tsx:165 | When every quantity is in [1, stock], the cart bar shows exactly when the cart has items |
| HomePage.PrecedesTotalPreorder | src/pages/Home.tsx:23-32 | For every filter, the comparator's order is total and transitive |
| HomePage.Insert | src/pages/Home.tsx:23 | Insertion adds exactly the one element to the multiset |
| HomePage.InsertSorted | src/pages/Home.tsx:23 | Inserting into a list sorted by the comparator keeps it sorted |
| HomePage.SortMachines | src/pages/Home.tsx:23-32 | The sorted copy is a permutation of the catalog and ordered by the active comparator |
| HomePage.NearestAscending | src/pages/Home.tsx:25-26 | 'nearest' orders by ascending distance |
| HomePage.MostItemsDescending | src/pages/Home.tsx:27-28 | 'most-items' orders by descending available items |
| HomePage.RecentSortsLikeNearest | src/pages/Home.tsx:29-31 | 'recent' sorts exactly like 'nearest' |
| HomePage.InsertRecentLikeNearest | src/pages/Home.tsx:29-31 | Under 'recent' and under 'nearest', insertion places an element identically |
| HomePage.FilteredMachines | src/pages/Home.tsx:34-37 | The result is still sorted. A machine is in it iff it is in the catalog and its lower-cased name or location includes the lower-cased query. The result is a subsequence of the sorted copy itself, with each matching machine as often as in the catalog, so ties keep the sort's order. |
| HomePage.AddressNotConsulted | src/pages/Home.tsx:34-37 | A machine whose name and location miss the query is hidden whatever its address |
| HomePage.RecentOrders | src/pages/Home.tsx:106 | The strip shows the first `min(3, n)` orders, in order |
| Seqs.FilterMultiset | src/pages/Orders.tsx:20-25 | `Array.filter` keeps every copy of each element that passes and drops every copy of each one that fails |
| Text.IncludesIffOccurs | src/pages/Search.tsx:22-25 | `includes` holds iff the needle occurs at some position of the haystack |
| Text.DecimalRoundTrip | src/pages/OrderStatus.tsx:52 | Reading a number's decimal rendering back gives the number |
| Text.PadTwoDigits | src/pages/OrderStatus.tsx:52 | `padStart(2, '0')` on a number below 100 gives two digits with the same value |

## Left out

- Persistence: the zustand `persist` middleware, which stores the cart in browser storage under `vending-cart`, is I/O. Only the transition functions are modelled.
- Timers: `setInterval`, `clearInterval` and `setTimeout` are not modelled. Each timer firing is one explicit tick. The 5-second auto-clear of the confetti is not modelled, and neither is the confetti animation itself (it uses randomness).
- Floating point: prices are integer cents. The rounding of JavaScript's `reduce` is not modelled. Tax, discount, wallet checks and the stepper bar width are floating-point presentation outside this model.
- Presentation: toasts (except the flag deciding the "Removed" toast), framer-motion animation, QR rendering, CSS classes beyond the label highlight and badge tone, and the machine status badge of the machine screen.
- Text: `toLowerCase` is restricted to ASCII `A`-`Z`; full Unicode case mapping is not modelled.
- OrderProgress.FormatTime: takes a natural number. The source's result for negative seconds is not modelled, because the countdown is never negative (`OrderProgress.CountdownFromStart`).
- MachineDetailsPage.Render: the route's machine id is a string. An absent (`undefined`) route parameter is not modelled.
- HomePage.SortMachines: `Insert` places equal elements stably, as JavaScript's `sort` does, but stability is not stated as a property.
- SearchPage.FilteredMachines: the status filter is an optional machine status rather than an arbitrary string, since the filter chips only ever set null or one of the three statuses.
- CartStore.UpdateQuantity: the quantity is an integer. Fractional JavaScript numbers are not modelled.
- Numbers: stock, quantities, counts, prices and seconds are unbounded integers. JavaScript's double precision (integers above 2^53 lose precision, so for example the clamped increment in `addItem` can stop growing) and its exponent formatting of numbers from 1e21 on in template strings are not modelled; `Text.DecimalString` always prints every digit.
- Routing, wallet, profile, payment and the presentational components are outside this model.
