/**
 The line items shared by both cart panels, and the three array operations the
 panels perform on them: replacing one id's quantity (an `Array.map`), dropping
 one id (an `Array.filter`) and summing `price * quantity` (an `Array.reduce`).
 */
module CartItems {
  import opened Wrappers

  /** One cart line: a product's id, name and price, copied when the product was
      added, plus how many of it are in the cart. */
  datatype CartItem = CartItem(id: string, name: string, price: int, quantity: int)

  /** The browser storage slot under the key "cart": absent, or the cart last
      written to it (kept in decoded form; the JSON text itself is not modelled). */
  type Slot = Option<seq<CartItem>>

  predicate HasId(items: seq<CartItem>, id: string) {
    exists i :: 0 <= i < |items| && items[i].id == id
  }

  /** At most one line per product id. */
  predicate UniqueIds(items: seq<CartItem>) {
    forall i, j :: 0 <= i < j < |items| ==> items[i].id != items[j].id
  }

  predicate QuantitiesAtLeastOne(items: seq<CartItem>) {
    forall i :: 0 <= i < |items| ==> items[i].quantity >= 1
  }

  predicate PricesNonNegative(items: seq<CartItem>) {
    forall i :: 0 <= i < |items| ==> items[i].price >= 0
  }

  /** The cart invariants the storefront relies on: one line per id, every
      quantity at least 1, no negative price. */
  predicate WellFormed(items: seq<CartItem>) {
    UniqueIds(items) && QuantitiesAtLeastOne(items) && PricesNonNegative(items)
  }

  /** `a` can be obtained from `b` by deleting elements, so `a` keeps the
      relative order of the elements of `b` it retains. */
  ghost predicate IsSubsequence<T>(a: seq<T>, b: seq<T>)
    decreases |b|
  {
    |a| == 0 ||
    (|b| > 0 && ((a[0] == b[0] && IsSubsequence(a[1..], b[1..])) || IsSubsequence(a, b[1..])))
  }

  /** Replaces the quantity of every line carrying `id` with `q`, keeping
      everything else. */
  function SetQuantity(items: seq<CartItem>, id: string, q: int): (r: seq<CartItem>)
    ensures |r| == |items|
    ensures forall i :: 0 <= i < |items| ==>
              r[i].id == items[i].id && r[i].name == items[i].name && r[i].price == items[i].price
    ensures forall i :: 0 <= i < |items| && items[i].id == id ==> r[i].quantity == q
    ensures forall i :: 0 <= i < |items| && items[i].id != id ==> r[i] == items[i]
  {
    seq(|items|, i requires 0 <= i < |items| =>
      if items[i].id == id then items[i].(quantity := q) else items[i])
  }

  /** Keeps, in order, every line whose id is not `id`. */
  function RemoveId(items: seq<CartItem>, id: string): (r: seq<CartItem>)
    ensures forall x :: x in r <==> x in items && x.id != id
    ensures |r| <= |items|
    decreases |items|
  {
    if |items| == 0 then []
    else
      var rest := RemoveId(items[1..], id);
      assert forall x :: x in items <==> x == items[0] || x in items[1..];
      if items[0].id != id then [items[0]] + rest else rest
  }

  /** The filter leaves no line with the removed id. */
  lemma RemoveIdLeavesNoLine(items: seq<CartItem>, id: string)
    ensures !HasId(RemoveId(items, id), id)
  {
    var r := RemoveId(items, id);
    forall i | 0 <= i < |r|
      ensures r[i].id != id
    {
      assert r[i] in r;
    }
  }

  /** The filter keeps every other line as often as it occurs, and drops every
      line with the removed id. */
  lemma {:induction false} RemoveIdMultiset(items: seq<CartItem>, id: string)
    ensures forall x :: multiset(RemoveId(items, id))[x] == if x.id == id then 0 else multiset(items)[x]
    decreases |items|
  {
    if |items| > 0 {
      RemoveIdMultiset(items[1..], id);
      assert items == [items[0]] + items[1..];
    }
  }

  /** The filter keeps the relative order of the lines it retains. */
  lemma {:induction false} RemoveIdIsSubsequence(items: seq<CartItem>, id: string)
    ensures IsSubsequence(RemoveId(items, id), items)
    decreases |items|
  {
    if |items| > 0 {
      RemoveIdIsSubsequence(items[1..], id);
      var rest := RemoveId(items[1..], id);
      if items[0].id != id {
        assert ([items[0]] + rest)[1..] == rest;
      } else if |rest| > 0 {
        assert IsSubsequence(rest, items[1..]);
      }
    }
  }

  /** Filtering out an id the cart does not hold changes nothing. */
  lemma {:induction false} RemoveIdAbsent(items: seq<CartItem>, id: string)
    ensures !HasId(items, id) ==> RemoveId(items, id) == items
    decreases |items|
  {
    if |items| > 0 && !HasId(items, id) {
      RemoveIdAbsent(items[1..], id);
      assert items == [items[0]] + items[1..];
    }
  }

  /** What one line contributes to the subtotal. */
  function LineTotal(x: CartItem): int {
    x.price * x.quantity
  }

  /** The sum of price times quantity over the cart, accumulated from the left
      starting at 0, as the panel's fold does. */
  function Subtotal(items: seq<CartItem>): (r: int)
    ensures |items| == 0 ==> r == 0
    ensures PricesNonNegative(items) && QuantitiesAtLeastOne(items) ==> r >= 0
  {
    if |items| == 0 then 0
    else
      var last := items[|items| - 1];
      assert last.price >= 0 && last.quantity >= 1 ==> LineTotal(last) >= 0 by {
        if last.price >= 0 && last.quantity >= 1 {
          NonNegativeProduct(last.price, last.quantity);
        }
      }
      Subtotal(items[..|items| - 1]) + LineTotal(last)
  }

  lemma NonNegativeProduct(a: int, b: int)
    requires a >= 0 && b >= 0
    ensures a * b >= 0
  {
  }

  /** The subtotal as the source computes it: a left-to-right fold starting at 0. */
  method ReduceSubtotal(items: seq<CartItem>) returns (sum: int)
    ensures sum == Subtotal(items)
  {
    sum := 0;
    var i := 0;
    while i < |items|
      invariant 0 <= i <= |items|
      invariant sum == Subtotal(items[..i])
    {
      assert items[..i + 1][..i] == items[..i];
      sum := sum + LineTotal(items[i]);
      i := i + 1;
    }
    assert items[..|items|] == items;
  }

  /** The subtotal distributes over concatenation. */
  lemma {:induction false} SubtotalAppend(a: seq<CartItem>, b: seq<CartItem>)
    ensures Subtotal(a + b) == Subtotal(a) + Subtotal(b)
    decreases |b|
  {
    if |b| == 0 {
      assert a + b == a;
    } else {
      var b' := b[..|b| - 1];
      assert (a + b)[..|a + b| - 1] == a + b';
      assert (a + b)[|a + b| - 1] == b[|b| - 1];
      SubtotalAppend(a, b');
    }
  }

  /** Peeling the first line off the subtotal. */
  lemma {:induction false} SubtotalCons(items: seq<CartItem>)
    requires |items| > 0
    ensures Subtotal(items) == LineTotal(items[0]) + Subtotal(items[1..])
    decreases |items|
  {
    var n := |items| - 1;
    if n == 0 {
      assert items[..0] == [] && items[1..] == [];
    } else {
      var init := items[..n];
      SubtotalCons(init);
      assert init[0] == items[0];
      assert init[1..] == items[1..][..n - 1];
      assert items[1..][n - 1] == items[n];
    }
  }

  /** Two carts that agree everywhere but at position `k` have subtotals that
      differ by exactly the difference of their lines at `k`. */
  lemma {:induction false} SubtotalPointChange(a: seq<CartItem>, b: seq<CartItem>, k: int)
    requires |a| == |b| && 0 <= k < |a|
    requires forall i :: 0 <= i < |a| && i != k ==> a[i] == b[i]
    ensures Subtotal(b) == Subtotal(a) + LineTotal(b[k]) - LineTotal(a[k])
    decreases |a|
  {
    var n := |a| - 1;
    assert Subtotal(a) == Subtotal(a[..n]) + LineTotal(a[n]);
    assert Subtotal(b) == Subtotal(b[..n]) + LineTotal(b[n]);
    if n == k {
      assert a[..n] == b[..n];
    } else {
      assert a[n] == b[n];
      assert a[..n][k] == a[k] && b[..n][k] == b[k];
      SubtotalPointChange(a[..n], b[..n], k);
    }
  }

  /** With one line per id, setting the quantity of the line with `id` changes
      the subtotal by exactly the change in that line's total. */
  lemma SubtotalAfterSetQuantity(items: seq<CartItem>, id: string, q: int, k: int)
    requires UniqueIds(items) && 0 <= k < |items| && items[k].id == id
    ensures Subtotal(SetQuantity(items, id, q))
              == Subtotal(items) + LineTotal(items[k].(quantity := q)) - LineTotal(items[k])
  {
    SetQuantityTouchesOneLine(items, id, q, k);
    SubtotalPointChange(items, SetQuantity(items, id, q), k);
  }

  /** With one line per id, the map rewrites the line at `k` and only that line. */
  lemma SetQuantityTouchesOneLine(items: seq<CartItem>, id: string, q: int, k: int)
    requires UniqueIds(items) && 0 <= k < |items| && items[k].id == id
    ensures |SetQuantity(items, id, q)| == |items|
    ensures SetQuantity(items, id, q)[k] == items[k].(quantity := q)
    ensures forall i :: 0 <= i < |items| && i != k ==> SetQuantity(items, id, q)[i] == items[i]
  {
    var r := SetQuantity(items, id, q);
    forall i | 0 <= i < |items| && i != k
      ensures r[i] == items[i]
    {
      if i < k { assert items[i].id != items[k].id; } else { assert items[k].id != items[i].id; }
    }
  }

  /** With one line per id, removing the line with `id` lowers the subtotal by
      exactly that line's total. */
  lemma {:induction false} SubtotalAfterRemoveId(items: seq<CartItem>, id: string, k: int)
    requires UniqueIds(items) && 0 <= k < |items| && items[k].id == id
    ensures Subtotal(RemoveId(items, id)) == Subtotal(items) - LineTotal(items[k])
    decreases |items|
  {
    SubtotalCons(items);
    var tail := items[1..];
    if k == 0 {
      assert !HasId(tail, id);
      RemoveIdAbsent(tail, id);
    } else {
      assert UniqueIds(tail);
      assert tail[k - 1] == items[k];
      SubtotalAfterRemoveId(tail, id, k - 1);
      SubtotalCons([items[0]] + RemoveId(tail, id));
      assert ([items[0]] + RemoveId(tail, id))[1..] == RemoveId(tail, id);
    }
  }

  /** Replacing a quantity keeps every id, name and price, so it keeps one line
      per id; it keeps all quantities at least 1 whenever the new one is. */
  lemma SetQuantityKeepsWellFormed(items: seq<CartItem>, id: string, q: int)
    requires WellFormed(items) && q >= 1
    ensures WellFormed(SetQuantity(items, id, q))
  {
  }

  /** Replacing the quantity of an id the cart does not hold changes nothing. */
  lemma SetQuantityAbsent(items: seq<CartItem>, id: string, q: int)
    requires !HasId(items, id)
    ensures SetQuantity(items, id, q) == items
  {
  }

  /** Dropping lines keeps one line per id. */
  lemma {:induction false} RemoveIdKeepsUniqueIds(items: seq<CartItem>, id: string)
    requires UniqueIds(items)
    ensures UniqueIds(RemoveId(items, id))
    decreases |items|
  {
    if |items| > 0 {
      var tail := items[1..];
      assert UniqueIds(tail);
      RemoveIdKeepsUniqueIds(tail, id);
      var rest := RemoveId(tail, id);
      if items[0].id != id {
        forall j | 0 <= j < |rest|
          ensures rest[j].id != items[0].id
        {
          assert rest[j] in tail;
        }
      }
    }
  }

  /** Dropping lines keeps every invariant of the remaining lines. */
  lemma RemoveIdKeepsWellFormed(items: seq<CartItem>, id: string)
    requires WellFormed(items)
    ensures WellFormed(RemoveId(items, id))
  {
    RemoveIdKeepsUniqueIds(items, id);
    var r := RemoveId(items, id);
    forall i | 0 <= i < |r|
      ensures r[i].quantity >= 1 && r[i].price >= 0
    {
      assert r[i] in items;
    }
  }
}
