/**
 The rich cart panel (app/components/CartModal.tsx): a list of line items with
 quantity controls, removal, clearing and checkout. Every mutation writes the new
 list through to the storage slot in the same step; mounting, opening or closing
 the panel reloads the list from the slot when the slot holds something.
 */
module CartModal {
  import opened Wrappers
  import opened CartItems

  /** The panel's state: the in-memory line items and the storage slot. */
  datatype Panel = Panel(items: seq<CartItem>, slot: Slot)

  /** What checkout reports: the panel afterwards and the total charged. */
  datatype CheckoutResult = CheckoutResult(panel: Panel, total: int)

  /** The slot holds exactly the in-memory cart. */
  predicate Synced(p: Panel) {
    p.slot == Some(p.items)
  }

  /** The panel on first render: `useState([])`, with the slot as the browser has it. */
  function Init(stored: Slot): (p: Panel)
    ensures p.items == [] && p.slot == stored
  {
    Panel([], stored)
  }

  /** The effect run on mount and whenever `isOpen` changes: a stored cart
      replaces the in-memory one; an absent slot leaves the panel as it is. */
  function Load(p: Panel): (r: Panel)
    ensures r.slot == p.slot
    ensures p.slot.Some? ==> Synced(r)
    ensures p.slot.None? ==> r == p
  {
    match p.slot
    case Some(stored) => p.(items := stored)
    case None => p
  }

  /** `updateQuantity`: a request below 1 is ignored; otherwise every line with
      `id` gets the new quantity and the result is written to the slot. */
  function UpdateQuantity(p: Panel, id: string, newQuantity: int): (r: Panel)
    ensures newQuantity < 1 ==> r == p
    ensures newQuantity >= 1 ==> Synced(r)
    ensures newQuantity >= 1 ==> |r.items| == |p.items|
    ensures newQuantity >= 1 ==> forall i :: 0 <= i < |p.items| ==>
              r.items[i].id == p.items[i].id && r.items[i].name == p.items[i].name &&
              r.items[i].price == p.items[i].price &&
              r.items[i].quantity == (if p.items[i].id == id then newQuantity else p.items[i].quantity)
  {
    if newQuantity < 1 then p
    else
      var updated := SetQuantity(p.items, id, newQuantity);
      Panel(updated, Some(updated))
  }

  /** `removeFromCart`: drop every line with `id` and write the result to the slot. */
  function RemoveFromCart(p: Panel, id: string): (r: Panel)
    ensures Synced(r)
    ensures !HasId(r.items, id)
    ensures forall x :: x in r.items <==> x in p.items && x.id != id
    ensures IsSubsequence(r.items, p.items)
    ensures forall x :: multiset(r.items)[x] == if x.id == id then 0 else multiset(p.items)[x]
    ensures !HasId(p.items, id) ==> r.items == p.items
  {
    RemoveIdLeavesNoLine(p.items, id);
    RemoveIdMultiset(p.items, id);
    RemoveIdIsSubsequence(p.items, id);
    RemoveIdAbsent(p.items, id);
    var updated := RemoveId(p.items, id);
    Panel(updated, Some(updated))
  }

  /** `clearCart`: the empty cart, in memory and in the slot. */
  function ClearCart(p: Panel): (r: Panel)
    ensures r.items == [] && Synced(r)
  {
    Panel([], Some([]))
  }

  /** `handleCheckout`: report the subtotal of the current cart, then clear it. */
  function Checkout(p: Panel): (r: CheckoutResult)
    ensures r.total == Subtotal(p.items)
    ensures r.panel.items == [] && r.panel.slot == Some([])
    ensures PricesNonNegative(p.items) && QuantitiesAtLeastOne(p.items) ==> r.total >= 0
  {
    CheckoutResult(ClearCart(p), Subtotal(p.items))
  }

  /** The user actions the panel responds to; `Toggle` is opening or closing
      the panel, which runs the load effect. Writes to the slot by anyone else
      are not panel actions: see `ExternalWrite`. */
  datatype Action =
    | Toggle
    | Update(id: string, quantity: int)
    | Remove(id: string)
    | Clear
    | CheckoutNow

  function Step(p: Panel, a: Action): Panel {
    match a
    case Toggle => Load(p)
    case Update(id, q) => UpdateQuantity(p, id, q)
    case Remove(id) => RemoveFromCart(p, id)
    case Clear => ClearCart(p)
    case CheckoutNow => Checkout(p).panel
  }

  /** The panel after a sequence of actions, applied in order. */
  function Run(p: Panel, actions: seq<Action>): Panel
    decreases |actions|
  {
    if |actions| == 0 then p else Run(Step(p, actions[0]), actions[1..])
  }

  /** Every action keeps a synced, well-formed panel synced and well-formed. */
  lemma StepKeepsInvariant(p: Panel, a: Action)
    requires Synced(p) && WellFormed(p.items)
    ensures Synced(Step(p, a)) && WellFormed(Step(p, a).items)
  {
    match a
    case Update(id, q) =>
      if q >= 1 {
        SetQuantityKeepsWellFormed(p.items, id, q);
      }
    case Remove(id) =>
      RemoveIdKeepsWellFormed(p.items, id);
    case _ =>
  }

  /** Starting from a synced, well-formed panel, any sequence of user actions
      leaves the slot equal to the cart and keeps one line per id, every
      quantity at least 1 and no negative price. */
  lemma {:induction false} RunKeepsInvariant(p: Panel, actions: seq<Action>)
    requires Synced(p) && WellFormed(p.items)
    ensures Synced(Run(p, actions)) && WellFormed(Run(p, actions).items)
    decreases |actions|
  {
    if |actions| > 0 {
      StepKeepsInvariant(p, actions[0]);
      RunKeepsInvariant(Step(p, actions[0]), actions[1..]);
    }
  }

  /** Opening the panel over a well-formed stored cart yields a synced,
      well-formed panel, whatever was in memory before. */
  lemma OpenEstablishesInvariant(stored: seq<CartItem>, p: Panel)
    requires p.slot == Some(stored) && WellFormed(stored)
    ensures Synced(Load(p)) && WellFormed(Load(p).items) && Load(p).items == stored
  {
  }

  /** The states the panel can be in from mount on: synced, or, on a first
      visit with nothing stored, the empty list with the slot still absent
      (opening and closing never write the slot). */
  predicate Reachable(p: Panel) {
    (Synced(p) || p == Panel([], None)) && WellFormed(p.items)
  }

  /** Every action keeps the panel in a reachable state. */
  lemma StepKeepsReachable(p: Panel, a: Action)
    requires Reachable(p)
    ensures Reachable(Step(p, a))
  {
    if Synced(p) {
      StepKeepsInvariant(p, a);
    }
  }

  /** From mount, over an absent slot or a well-formed stored cart, any
      sequence of actions keeps the cart well-formed and the slot either equal
      to the cart or, until the first successful mutation, absent with the
      cart empty. */
  lemma {:induction false} RunFromMount(stored: Slot, actions: seq<Action>)
    requires stored.None? || WellFormed(stored.value)
    ensures Reachable(Run(Load(Init(stored)), actions))
  {
    RunKeepsReachable(Load(Init(stored)), actions);
  }

  lemma {:induction false} RunKeepsReachable(p: Panel, actions: seq<Action>)
    requires Reachable(p)
    ensures Reachable(Run(p, actions))
    decreases |actions|
  {
    if |actions| > 0 {
      StepKeepsReachable(p, actions[0]);
      RunKeepsReachable(Step(p, actions[0]), actions[1..]);
    }
  }

  /** On a first visit with nothing stored, mounting the panel (and any later
      open or close) leaves the slot absent: unlike the older panel, nothing is
      written until a mutation. */
  lemma FirstVisitWritesNothing()
    ensures Load(Init(None)) == Panel([], None) && !Synced(Load(Init(None)))
    ensures Step(Load(Init(None)), Toggle) == Load(Init(None))
  {
  }

  /** Another writer of the `"cart"` key: the older panel's save effect, or
      add-to-cart code outside the panel. It replaces the slot (`None` when it
      removes the key) and leaves the panel's in-memory list alone. */
  function ExternalWrite(p: Panel, s: Slot): (r: Panel)
    ensures r.items == p.items && r.slot == s
  {
    p.(slot := s)
  }

  /** Between two writes of its own, the panel's slot changes only through
      another writer, so on a reachable panel opening or closing reloads
      exactly what the panel itself last wrote. */
  lemma ToggleIdleWithoutExternalWrite(p: Panel)
    requires Reachable(p)
    ensures Step(p, Toggle) == p
  {
  }

  /** Opening or closing after another writer stored a cart installs exactly
      that cart and leaves the panel synced; after the key was removed, the
      panel keeps its list and the slot stays absent. */
  lemma ToggleAfterExternalWrite(p: Panel, s: Slot)
    ensures s.Some? ==> Step(ExternalWrite(p, s), Toggle) == Panel(s.value, s)
    ensures s.Some? ==> Synced(Step(ExternalWrite(p, s), Toggle))
    ensures s.None? ==> Step(ExternalWrite(p, s), Toggle) == Panel(p.items, None)
  {
  }

  /** After another writer stores a well-formed cart, opening or closing the
      panel and then any sequence of its own actions keeps the slot equal to
      the cart and the cart well-formed, whatever state the panel was in. */
  lemma {:induction false} ExternalWriteThenRun(p: Panel, xs: seq<CartItem>, actions: seq<Action>)
    requires WellFormed(xs)
    ensures Step(ExternalWrite(p, Some(xs)), Toggle).items == xs
    ensures Synced(Run(Step(ExternalWrite(p, Some(xs)), Toggle), actions))
    ensures WellFormed(Run(Step(ExternalWrite(p, Some(xs)), Toggle), actions).items)
  {
    ToggleAfterExternalWrite(p, Some(xs));
    RunKeepsInvariant(Step(ExternalWrite(p, Some(xs)), Toggle), actions);
  }

  /** Updating the quantity of an id the cart does not hold leaves the cart as
      it was, but still writes it to the slot. */
  lemma UpdateAbsentId(p: Panel, id: string, q: int)
    requires q >= 1 && !HasId(p.items, id)
    ensures UpdateQuantity(p, id, q) == Panel(p.items, Some(p.items))
  {
    SetQuantityAbsent(p.items, id, q);
  }

  /** A successful quantity update on a well-formed cart moves the subtotal by
      the change in the updated line's total, and by nothing else. */
  lemma UpdateQuantitySubtotal(p: Panel, id: string, q: int, k: int)
    requires q >= 1 && UniqueIds(p.items) && 0 <= k < |p.items| && p.items[k].id == id
    ensures Subtotal(UpdateQuantity(p, id, q).items)
              == Subtotal(p.items) + LineTotal(p.items[k].(quantity := q)) - LineTotal(p.items[k])
  {
    SubtotalAfterSetQuantity(p.items, id, q, k);
  }

  /** Removing a line from a well-formed cart lowers the subtotal by that line's total. */
  lemma RemoveFromCartSubtotal(p: Panel, id: string, k: int)
    requires UniqueIds(p.items) && 0 <= k < |p.items| && p.items[k].id == id
    ensures Subtotal(RemoveFromCart(p, id).items) == Subtotal(p.items) - LineTotal(p.items[k])
  {
    SubtotalAfterRemoveId(p.items, id, k);
  }

  /** Removal is idempotent: removing the same id twice is removing it once. */
  lemma RemoveTwice(p: Panel, id: string)
    ensures RemoveFromCart(RemoveFromCart(p, id), id) == RemoveFromCart(p, id)
  {
  }

  /** Two lines at 10 x 2 and 5 x 3 cost 35. */
  lemma SubtotalExample()
    ensures Subtotal([CartItem("1", "A", 10, 2), CartItem("2", "B", 5, 3)]) == 35
  {
  }
}
