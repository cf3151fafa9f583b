/** The client-side shopping cart store (`CartProvider` in src/context/CartContext.tsx):
    a list of lines identified by (product id, size, colour) and a flag saying
    whether the cart drawer is open. */
module Cart {
  import opened Seqs

  /** A product id is a string or a number; `===` never equates the two kinds. */
  datatype ProductId = TextId(text: string) | NumberId(number: int)

  /** `CartItem`: one line of the cart. */
  datatype CartItem = CartItem(
    id: ProductId,
    name: string,
    price: int,
    image: string,
    quantity: int,
    size: int,
    color: string)

  /** The identity of a line: the triple compared field by field with `===`. */
  datatype LineKey = LineKey(id: ProductId, size: int, color: string)

  function Key(item: CartItem): LineKey {
    LineKey(item.id, item.size, item.color)
  }

  /** Some line of `items` has identity `k` (`items.find(...)` succeeds). */
  predicate HasLine(items: seq<CartItem>, k: LineKey) {
    exists i | 0 <= i < |items| :: Key(items[i]) == k
  }

  /** No identity occurs on two lines. */
  predicate UniqueKeys(items: seq<CartItem>) {
    forall i, j :: 0 <= i < j < |items| ==> Key(items[i]) != Key(items[j])
  }

  predicate AllPositive(items: seq<CartItem>) {
    forall i :: 0 <= i < |items| ==> items[i].quantity >= 1
  }

  /** `addItem`'s updater: merge the quantity into the lines with the same identity, or append. */
  function AddLine(items: seq<CartItem>, newItem: CartItem): seq<CartItem> {
    if HasLine(items, Key(newItem)) then
      seq(|items|, i requires 0 <= i < |items| =>
        if Key(items[i]) == Key(newItem)
        then items[i].(quantity := items[i].quantity + newItem.quantity)
        else items[i])
    else items + [newItem]
  }

  /** The filter condition of `removeItem`: the line's identity is not `k`. */
  function KeyIsNot(k: LineKey): CartItem -> bool {
    (x: CartItem) => Key(x) != k
  }

  /** `removeItem`'s updater: keep the lines whose identity is not `k`. */
  function RemoveLines(items: seq<CartItem>, k: LineKey): seq<CartItem> {
    Filter(items, KeyIsNot(k))
  }

  /** `Math.max(1, q)`. */
  function AtLeastOne(q: int): (r: int)
    ensures r >= 1 && r >= q
    ensures r == q || r == 1
  {
    if q > 1 then q else 1
  }

  /** `updateQuantity`'s updater: set the quantity of the lines with identity `k` to `max(1, q)`. */
  function SetQuantity(items: seq<CartItem>, k: LineKey, q: int): seq<CartItem> {
    seq(|items|, i requires 0 <= i < |items| =>
      if Key(items[i]) == k then items[i].(quantity := AtLeastOne(q)) else items[i])
  }

  function LineTotal(item: CartItem): int {
    item.price * item.quantity
  }

  /** `subtotal`: the `reduce` of price times quantity over the lines. */
  function Subtotal(items: seq<CartItem>): int {
    SumOf(items, LineTotal)
  }

  function LineQuantity(item: CartItem): int {
    item.quantity
  }

  /** The navbar badge: the `reduce` of the quantities. */
  function ItemCount(items: seq<CartItem>): int {
    SumOf(items, LineQuantity)
  }

  // ---------------------------------------------------------------- addItem

  /** Adding an identity already in the cart merges into that line: the length is
      unchanged, the quantity is the sum, the line keeps its own name, price and image,
      and every other line is untouched. */
  lemma AddExisting(items: seq<CartItem>, newItem: CartItem, i: nat)
    requires UniqueKeys(items)
    requires i < |items| && Key(items[i]) == Key(newItem)
    ensures |AddLine(items, newItem)| == |items|
    ensures AddLine(items, newItem)[i].quantity == items[i].quantity + newItem.quantity
    ensures AddLine(items, newItem)[i].name == items[i].name
    ensures AddLine(items, newItem)[i].price == items[i].price
    ensures AddLine(items, newItem)[i].image == items[i].image
    ensures Key(AddLine(items, newItem)[i]) == Key(items[i])
    ensures AddLine(items, newItem) == items[i := items[i].(quantity := items[i].quantity + newItem.quantity)]
  {
    assert HasLine(items, Key(newItem));
  }

  /** Adding a new identity appends the item at the end; earlier lines are unchanged. */
  lemma AddNew(items: seq<CartItem>, newItem: CartItem)
    requires !HasLine(items, Key(newItem))
    ensures |AddLine(items, newItem)| == |items| + 1
    ensures AddLine(items, newItem)[..|items|] == items
    ensures AddLine(items, newItem)[|items|] == newItem
  {
  }

  /** `addItem` never creates a second line with the same identity. */
  lemma AddKeepsUnique(items: seq<CartItem>, newItem: CartItem)
    requires UniqueKeys(items)
    ensures UniqueKeys(AddLine(items, newItem))
  {
    var r := AddLine(items, newItem);
    if HasLine(items, Key(newItem)) {
      assert forall i :: 0 <= i < |items| ==> Key(r[i]) == Key(items[i]);
    } else {
      forall i, j | 0 <= i < j < |r| ensures Key(r[i]) != Key(r[j]) {
        if j == |items| {
          assert r[j] == newItem && r[i] == items[i];
        }
      }
    }
  }

  /** With positive quantities added, every line keeps a positive quantity. */
  lemma AddKeepsPositive(items: seq<CartItem>, newItem: CartItem)
    requires AllPositive(items) && newItem.quantity >= 1
    ensures AllPositive(AddLine(items, newItem))
  {
  }

  /** Adding the same identity twice to a cart without it yields one line with the summed quantity. */
  lemma AddTwiceMerges(items: seq<CartItem>, a: CartItem, b: CartItem)
    requires UniqueKeys(items) && !HasLine(items, Key(a)) && Key(b) == Key(a)
    ensures AddLine(AddLine(items, a), b) == items + [a.(quantity := a.quantity + b.quantity)]
  {
    var once := AddLine(items, a);
    AddNew(items, a);
    AddKeepsUnique(items, a);
    AddExisting(once, b, |items|);
  }

  /** The badge count grows by exactly the quantity added, whether the line merges or is appended. */
  lemma AddItemCount(items: seq<CartItem>, newItem: CartItem)
    requires UniqueKeys(items)
    ensures ItemCount(AddLine(items, newItem)) == ItemCount(items) + newItem.quantity
  {
    if HasLine(items, Key(newItem)) {
      var i :| 0 <= i < |items| && Key(items[i]) == Key(newItem);
      AddExisting(items, newItem, i);
      SumOfUpdate(items, i, items[i].(quantity := items[i].quantity + newItem.quantity), LineQuantity);
    } else {
      SumOfAppend(items, [newItem], LineQuantity);
      SumOfSingleton(newItem, LineQuantity);
    }
  }

  /** Merging into line `i` raises the subtotal by that line's own price times the added quantity. */
  lemma AddSubtotalExisting(items: seq<CartItem>, newItem: CartItem, i: nat)
    requires UniqueKeys(items)
    requires i < |items| && Key(items[i]) == Key(newItem)
    ensures Subtotal(AddLine(items, newItem)) == Subtotal(items) + items[i].price * newItem.quantity
  {
    var merged := items[i].(quantity := items[i].quantity + newItem.quantity);
    assert AddLine(items, newItem) == items[i := merged] by {
      AddExisting(items, newItem, i);
    }
    SumOfUpdate(items, i, merged, LineTotal);
    assert LineTotal(merged) == LineTotal(items[i]) + items[i].price * newItem.quantity by {
      assert items[i].price * (items[i].quantity + newItem.quantity)
        == items[i].price * items[i].quantity + items[i].price * newItem.quantity;
    }
  }

  /** Appending a new line raises the subtotal by the new item's price times its quantity. */
  lemma AddSubtotalNew(items: seq<CartItem>, newItem: CartItem)
    requires !HasLine(items, Key(newItem))
    ensures Subtotal(AddLine(items, newItem)) == Subtotal(items) + newItem.price * newItem.quantity
  {
    SumOfAppend(items, [newItem], LineTotal);
    SumOfSingleton(newItem, LineTotal);
  }

  // ------------------------------------------------------------- removeItem

  /** After `removeItem` no line has the identity, the others are kept in order,
      and nothing happens when no line matches. */
  lemma RemoveSpec(items: seq<CartItem>, k: LineKey)
    ensures !HasLine(RemoveLines(items, k), k)
    ensures forall x :: x in RemoveLines(items, k) <==> x in items && Key(x) != k
    ensures Subseq(RemoveLines(items, k), items)
    ensures !HasLine(items, k) ==> RemoveLines(items, k) == items
  {
    var r := RemoveLines(items, k);
    forall i | 0 <= i < |r| ensures Key(r[i]) != k {
      assert r[i] in r;
    }
    FilterIsSubseq(items, KeyIsNot(k));
    if !HasLine(items, k) {
      NoMatchKeepsAll(items, k);
    }
  }

  /** A filter of a cart with unique identities has unique identities. */
  lemma {:induction false} FilterKeepsUnique(items: seq<CartItem>, p: CartItem -> bool)
    requires UniqueKeys(items)
    ensures UniqueKeys(Filter(items, p))
  {
    if items != [] {
      var rest := Filter(items[1..], p);
      FilterKeepsUnique(items[1..], p);
      if p(items[0]) {
        forall x | x in rest ensures Key(x) != Key(items[0]) {
          HeadKeyNotInRest(items, p, x);
        }
        ConsUnique(items[0], rest);
        assert Filter(items, p) == [items[0]] + rest;
      } else {
        assert Filter(items, p) == rest;
      }
    }
  }

  /** A line put in front of a cart with unique identities that lacks its identity keeps them unique. */
  lemma ConsUnique(h: CartItem, rest: seq<CartItem>)
    requires UniqueKeys(rest)
    requires forall x :: x in rest ==> Key(x) != Key(h)
    ensures UniqueKeys([h] + rest)
  {
    var r := [h] + rest;
    forall i, j | 0 <= i < j < |r| ensures Key(r[i]) != Key(r[j]) {
      assert r[j] == rest[j - 1];
      if i > 0 {
        assert r[i] == rest[i - 1];
      } else {
        assert r[j] in rest;
      }
    }
  }

  /** With unique identities, no element kept from the tail shares the head's identity. */
  lemma HeadKeyNotInRest(items: seq<CartItem>, p: CartItem -> bool, x: CartItem)
    requires UniqueKeys(items) && items != []
    requires x in Filter(items[1..], p)
    ensures Key(items[0]) != Key(x)
  {
    var m :| 0 <= m < |items[1..]| && items[1..][m] == x;
    assert items[m + 1] == x;
  }

  /** Removing an identity that no line has keeps the whole list. */
  lemma NoMatchKeepsAll(items: seq<CartItem>, k: LineKey)
    requires forall m :: 0 <= m < |items| ==> Key(items[m]) != k
    ensures RemoveLines(items, k) == items
  {
    FilterKeepsAll(items, KeyIsNot(k));
  }

  /** Removing the identity of the one line `x` between two parts that lack it leaves the two parts. */
  lemma RemoveBetween(pre: seq<CartItem>, x: CartItem, post: seq<CartItem>)
    requires forall m :: 0 <= m < |pre| ==> Key(pre[m]) != Key(x)
    requires forall m :: 0 <= m < |post| ==> Key(post[m]) != Key(x)
    ensures RemoveLines(pre + [x] + post, Key(x)) == pre + post
  {
    var p := KeyIsNot(Key(x));
    assert [x][1..] == [];
    assert Filter([x], p) == [];
    NoMatchKeepsAll(pre, Key(x));
    NoMatchKeepsAll(post, Key(x));
    FilterAppend(pre, [x], p);
    assert Filter(pre + [x], p) == pre;
    FilterAppend(pre + [x], post, p);
  }

  /** Removing the line at `i` of a cart with unique identities deletes exactly that position. */
  lemma RemoveExisting(items: seq<CartItem>, i: nat)
    requires UniqueKeys(items) && i < |items|
    ensures RemoveLines(items, Key(items[i])) == items[..i] + items[i + 1..]
  {
    var pre, post := items[..i], items[i + 1..];
    assert items == pre + [items[i]] + post;
    forall m | 0 <= m < |pre| ensures Key(pre[m]) != Key(items[i]) {
      assert pre[m] == items[m];
    }
    forall m | 0 <= m < |post| ensures Key(post[m]) != Key(items[i]) {
      assert post[m] == items[i + 1 + m];
    }
    RemoveBetween(pre, items[i], post);
  }

  /** Removing line `i` lowers the subtotal by that line's total and the badge by its quantity. */
  lemma RemoveTotals(items: seq<CartItem>, i: nat)
    requires UniqueKeys(items) && i < |items|
    ensures Subtotal(RemoveLines(items, Key(items[i]))) == Subtotal(items) - LineTotal(items[i])
    ensures ItemCount(RemoveLines(items, Key(items[i]))) == ItemCount(items) - items[i].quantity
  {
    RemoveExisting(items, i);
    assert items == items[..i] + [items[i]] + items[i + 1..];
    SumOfAppend(items[..i] + [items[i]], items[i + 1..], LineTotal);
    SumOfAppend(items[..i], [items[i]], LineTotal);
    SumOfAppend(items[..i], items[i + 1..], LineTotal);
    SumOfSingleton(items[i], LineTotal);
    SumOfAppend(items[..i] + [items[i]], items[i + 1..], LineQuantity);
    SumOfAppend(items[..i], [items[i]], LineQuantity);
    SumOfAppend(items[..i], items[i + 1..], LineQuantity);
    SumOfSingleton(items[i], LineQuantity);
  }

  // --------------------------------------------------------- updateQuantity

  /** `updateQuantity` sets the matching lines to `max(1, q)` and changes nothing else:
      same length, same identities, same other fields, a no-op when nothing matches. */
  lemma SetQuantitySpec(items: seq<CartItem>, k: LineKey, q: int)
    ensures |SetQuantity(items, k, q)| == |items|
    ensures forall i :: 0 <= i < |items| ==> Key(SetQuantity(items, k, q)[i]) == Key(items[i])
    ensures forall i :: 0 <= i < |items| && Key(items[i]) == k ==>
      SetQuantity(items, k, q)[i] == items[i].(quantity := AtLeastOne(q))
      && SetQuantity(items, k, q)[i].quantity >= 1
    ensures forall i :: 0 <= i < |items| && Key(items[i]) != k ==> SetQuantity(items, k, q)[i] == items[i]
    ensures !HasLine(items, k) ==> SetQuantity(items, k, q) == items
  {
  }

  lemma SetQuantityKeepsInvariants(items: seq<CartItem>, k: LineKey, q: int)
    ensures UniqueKeys(items) ==> UniqueKeys(SetQuantity(items, k, q))
    ensures AllPositive(items) ==> AllPositive(SetQuantity(items, k, q))
  {
    SetQuantitySpec(items, k, q);
  }

  /** Setting line `i` to `max(1, q)` changes the subtotal by its price times the quantity change. */
  lemma SetQuantitySubtotal(items: seq<CartItem>, i: nat, q: int)
    requires UniqueKeys(items) && i < |items|
    ensures Subtotal(SetQuantity(items, Key(items[i]), q))
      == Subtotal(items) - LineTotal(items[i]) + items[i].price * AtLeastOne(q)
  {
    var updated := items[i].(quantity := AtLeastOne(q));
    assert SetQuantity(items, Key(items[i]), q) == items[i := updated];
    SumOfUpdate(items, i, updated, LineTotal);
  }

  /** The drawer's minus button (`updateQuantity(..., quantity - 1)`) stops at 1 and never removes the line. */
  lemma DecrementStopsAtOne(items: seq<CartItem>, i: nat)
    requires i < |items| && items[i].quantity >= 1
    ensures |SetQuantity(items, Key(items[i]), items[i].quantity - 1)| == |items|
    ensures SetQuantity(items, Key(items[i]), items[i].quantity - 1)[i].quantity
      == if items[i].quantity > 1 then items[i].quantity - 1 else 1
  {
  }

  // --------------------------------------------------------------- subtotal

  /** With non-negative prices and quantities the subtotal is non-negative. */
  lemma SubtotalNonNegative(items: seq<CartItem>)
    requires forall x :: x in items ==> x.price >= 0 && x.quantity >= 0
    ensures Subtotal(items) >= 0
  {
    SumOfNonNegative(items, LineTotal);
  }

  /** The worked example's two lines: one shoe in size 42 and the same shoe in size 43. */
  const ShoeA42: CartItem := CartItem(TextId("A"), "Shoe", 10000, "a.jpg", 1, 42, "black")
  const ShoeA43: CartItem := ShoeA42.(size := 43)

  /** The worked example, first step: add A/42/black, then add it again with quantity 2; the
      lines merge. */
  lemma ScenarioMerge()
    ensures var c1 := AddLine([], ShoeA42);
            var c2 := AddLine(c1, ShoeA42.(quantity := 2));
            && c1 == [ShoeA42] && Subtotal(c1) == 10000
            && c2 == [ShoeA42.(quantity := 3)] && Subtotal(c2) == 30000
  {
    var c1 := AddLine([], ShoeA42);
    assert c1 == [ShoeA42] by {
      AddNew([], ShoeA42);
    }
    assert Subtotal(c1) == 10000 by {
      SumOfSingleton(ShoeA42, LineTotal);
    }
    var c2 := AddLine(c1, ShoeA42.(quantity := 2));
    assert c2 == [ShoeA42.(quantity := 3)] by {
      AddExisting(c1, ShoeA42.(quantity := 2), 0);
    }
    assert Subtotal(c2) == 30000 by {
      SumOfSingleton(ShoeA42.(quantity := 3), LineTotal);
    }
  }

  /** The worked example, second step: adding A/43/black appends a new line. */
  lemma ScenarioAppend()
    ensures var c2 := [ShoeA42.(quantity := 3)];
            var c3 := AddLine(c2, ShoeA43);
            && c3 == [ShoeA42.(quantity := 3), ShoeA43] && Subtotal(c3) == 40000
  {
    var c2 := [ShoeA42.(quantity := 3)];
    assert Subtotal(c2) == 30000 by {
      SumOfSingleton(ShoeA42.(quantity := 3), LineTotal);
    }
    assert !HasLine(c2, Key(ShoeA43));
    AddNew(c2, ShoeA43);
    AddSubtotalNew(c2, ShoeA43);
  }

  /** The worked example, last step: setting the first line to -5 clamps it to 1, and removing
      the size-43 line leaves the first one. */
  lemma ScenarioEdits()
    ensures var c3 := [ShoeA42.(quantity := 3), ShoeA43];
            var c4 := SetQuantity(c3, Key(ShoeA42), -5);
            var c5 := RemoveLines(c4, Key(ShoeA43));
            && c4 == [ShoeA42, ShoeA43] && Subtotal(c4) == 20000
            && c5 == [ShoeA42] && Subtotal(c5) == 10000
  {
    var c3 := [ShoeA42.(quantity := 3), ShoeA43];
    assert Subtotal(c3) == 40000 by {
      assert c3 == [ShoeA42.(quantity := 3)] + [ShoeA43];
      SumOfAppend([ShoeA42.(quantity := 3)], [ShoeA43], LineTotal);
      SumOfSingleton(ShoeA42.(quantity := 3), LineTotal);
      SumOfSingleton(ShoeA43, LineTotal);
    }
    SetQuantitySubtotal(c3, 0, -5);
    var c4 := SetQuantity(c3, Key(ShoeA42), -5);
    assert c4 == [ShoeA42, ShoeA43];
    RemoveExisting(c4, 1);
    RemoveTotals(c4, 1);
  }

  // ------------------------------------------------------------------ store

  /** `CartProvider`'s state. `Valid` is the identity invariant that every operation keeps. */
  class CartStore {
    var items: seq<CartItem>
    var isOpen: bool

    ghost predicate Valid()
      reads this
    {
      UniqueKeys(items)
    }

    /** A fresh store: nothing saved, drawer closed. */
    constructor ()
      ensures Valid() && items == [] && !isOpen
    {
      items := [];
      isOpen := false;
    }

    method AddItem(newItem: CartItem)
      requires Valid()
      modifies this
      ensures Valid()
      ensures items == AddLine(old(items), newItem)
      ensures isOpen
    {
      AddKeepsUnique(items, newItem);
      items := AddLine(items, newItem);
      isOpen := true;
    }

    method RemoveItem(id: ProductId, size: int, color: string)
      requires Valid()
      modifies this
      ensures Valid()
      ensures items == RemoveLines(old(items), LineKey(id, size, color))
      ensures isOpen == old(isOpen)
    {
      FilterKeepsUnique(items, KeyIsNot(LineKey(id, size, color)));
      items := RemoveLines(items, LineKey(id, size, color));
    }

    method UpdateQuantity(id: ProductId, size: int, color: string, quantity: int)
      requires Valid()
      modifies this
      ensures Valid()
      ensures items == SetQuantity(old(items), LineKey(id, size, color), quantity)
      ensures isOpen == old(isOpen)
    {
      SetQuantityKeepsInvariants(items, LineKey(id, size, color), quantity);
      items := SetQuantity(items, LineKey(id, size, color), quantity);
    }

    method ClearCart()
      requires Valid()
      modifies this
      ensures Valid()
      ensures items == [] && isOpen == old(isOpen)
    {
      items := [];
    }

    method OpenCart()
      requires Valid()
      modifies this
      ensures Valid()
      ensures isOpen && items == old(items)
    {
      isOpen := true;
    }

    method CloseCart()
      requires Valid()
      modifies this
      ensures Valid()
      ensures !isOpen && items == old(items)
    {
      isOpen := false;
    }
  }
}
