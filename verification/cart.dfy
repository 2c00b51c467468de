/**
 The older, simpler cart panel (app/components/Cart.tsx): removal and clearing
 only. Unlike the rich panel, its operations touch only the in-memory list; a
 separate effect copies the list into the storage slot after every render in
 which the list changed.
 */
module Cart {
  import opened Wrappers
  import opened CartItems

  /** The panel's state: the in-memory line items and the storage slot. */
  datatype CartState = CartState(items: seq<CartItem>, slot: Slot)

  /** The slot holds exactly the in-memory cart. */
  predicate Synced(c: CartState) {
    c.slot == Some(c.items)
  }

  /** The save effect: write the current list to the slot. */
  function Save(c: CartState): (r: CartState)
    ensures Synced(r) && r.items == c.items
  {
    c.(slot := Some(c.items))
  }

  /** Mounting the panel. The list starts empty; the load effect reads the
      slot, then the save effect (which runs after it in the same commit) writes
      the still-empty list; if the slot held a cart, the re-render it caused
      installs that cart and the save effect runs again. */
  function Mount(stored: Slot): (r: CartState)
    ensures Synced(r)
    ensures stored.Some? ==> r.items == stored.value
    ensures stored.None? ==> r.items == [] && r.slot == Some([])
  {
    var first := Save(CartState([], stored));
    match stored
    case Some(loaded) => Save(first.(items := loaded))
    case None => first
  }

  /** `removeFromCart`: filter out every line with `id`; the save effect follows. */
  function RemoveFromCart(c: CartState, id: string): (r: CartState)
    ensures Synced(r)
    ensures !HasId(r.items, id)
    ensures forall x :: x in r.items <==> x in c.items && x.id != id
    ensures IsSubsequence(r.items, c.items)
    ensures forall x :: multiset(r.items)[x] == if x.id == id then 0 else multiset(c.items)[x]
    ensures !HasId(c.items, id) ==> r.items == c.items
  {
    RemoveIdLeavesNoLine(c.items, id);
    RemoveIdMultiset(c.items, id);
    RemoveIdIsSubsequence(c.items, id);
    RemoveIdAbsent(c.items, id);
    Save(c.(items := RemoveId(c.items, id)))
  }

  /** `clearCart`: the empty list; the save effect follows. */
  function ClearCart(c: CartState): (r: CartState)
    ensures r.items == [] && Synced(r)
  {
    Save(c.(items := []))
  }

  /** The user actions this panel responds to. */
  datatype Action = Remove(id: string) | Clear

  function Step(c: CartState, a: Action): CartState {
    match a
    case Remove(id) => RemoveFromCart(c, id)
    case Clear => ClearCart(c)
  }

  /** The panel after a sequence of actions, applied in order. */
  function Run(c: CartState, actions: seq<Action>): CartState
    decreases |actions|
  {
    if |actions| == 0 then c else Run(Step(c, actions[0]), actions[1..])
  }

  /** After at least one action, the slot holds the current cart, whatever it
      held before; and the cart only ever shrinks. */
  lemma {:induction false} RunSyncsAndShrinks(c: CartState, actions: seq<Action>)
    requires |actions| > 0
    ensures Synced(Run(c, actions))
    ensures forall x :: x in Run(c, actions).items ==> x in c.items
    decreases |actions|
  {
    var next := Step(c, actions[0]);
    if |actions| > 1 {
      RunSyncsAndShrinks(next, actions[1..]);
    }
  }

  /** From mount, after any sequence of removals and clears (the empty one
      included), the slot holds the current cart; and the cart stays
      well-formed when the stored one was. */
  lemma RunFromMount(stored: Slot, actions: seq<Action>)
    ensures Synced(Run(Mount(stored), actions))
    ensures (stored.None? || WellFormed(stored.value)) ==> WellFormed(Run(Mount(stored), actions).items)
  {
    if |actions| > 0 {
      RunSyncsAndShrinks(Mount(stored), actions);
    }
    if stored.None? || WellFormed(stored.value) {
      RunKeepsWellFormed(Mount(stored), actions);
    }
  }

  /** Removal and clearing keep one line per id, every quantity at least 1
      and no negative price. */
  lemma {:induction false} RunKeepsWellFormed(c: CartState, actions: seq<Action>)
    requires WellFormed(c.items)
    ensures WellFormed(Run(c, actions).items)
    decreases |actions|
  {
    if |actions| > 0 {
      match actions[0] {
        case Remove(id) => RemoveIdKeepsWellFormed(c.items, id);
        case Clear =>
      }
      RunKeepsWellFormed(Step(c, actions[0]), actions[1..]);
    }
  }

  /** Another writer of the `"cart"` key (the rich panel, or add-to-cart code
      outside this panel) replaces the slot and leaves this panel's list alone. */
  function ExternalWrite(c: CartState, s: Slot): (r: CartState)
    ensures r.items == c.items && r.slot == s
  {
    c.(slot := s)
  }

  /** This panel reads the slot only on mount: whatever another writer stored
      afterwards is overwritten by the next removal or clear, and the panel's
      list is what it would have been without that write. */
  lemma {:induction false} ExternalWriteOverwritten(c: CartState, s: Slot, actions: seq<Action>)
    requires |actions| > 0
    ensures Run(ExternalWrite(c, s), actions) == Run(c, actions)
    ensures Synced(Run(ExternalWrite(c, s), actions))
  {
    RunSyncsAndShrinks(c, actions);
    match actions[0] {
      case Remove(id) =>
      case Clear =>
    }
    assert Step(ExternalWrite(c, s), actions[0]) == Step(c, actions[0]);
  }

  /** Removing an id twice is removing it once. */
  lemma RemoveTwice(c: CartState, id: string)
    ensures RemoveFromCart(RemoveFromCart(c, id), id) == RemoveFromCart(c, id)
  {
  }
}
