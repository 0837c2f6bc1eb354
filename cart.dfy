/** The storefront's cart store (apps/storefront/src/lib/store.ts): a list of lines, one per
    product id, that `add`, `remove`, `setQty` and `clear` replace, and the cart total.

    Prices are integers (cents). Writing the list to `localStorage` after every change is left
    out; the list read back at start-up is the constructor's parameter. */
module Cart {
  import opened Wrappers

  datatype CartItem = CartItem(id: string, title: string, price: int, image: string, qty: int)

  /** `Omit<CartItem, 'qty'>`: what `add` is given. */
  datatype NewItem = NewItem(id: string, title: string, price: int, image: string)

  /** `{...item, qty}` */
  function Line(item: NewItem, qty: int): CartItem {
    CartItem(item.id, item.title, item.price, item.image, qty)
  }

  /** Some line has this id (`s.items.find(i => i.id === item.id)` finds one). */
  predicate HasId(items: seq<CartItem>, id: string) {
    exists i :: 0 <= i < |items| && items[i].id == id
  }

  /** No two lines share an id. */
  predicate IdsUnique(items: seq<CartItem>) {
    forall i, j :: 0 <= i < j < |items| ==> items[i].id != items[j].id
  }

  /** Every line has a quantity of at least one. */
  predicate QtysPositive(items: seq<CartItem>) {
    forall i :: 0 <= i < |items| ==> items[i].qty >= 1
  }

  /** `s.items.map(i => i.id === id ? {...i, qty: i.qty + qty} : i)` */
  function Bumped(items: seq<CartItem>, id: string, qty: int): (r: seq<CartItem>)
    ensures |r| == |items|
    ensures forall i :: 0 <= i < |items| && items[i].id == id ==> r[i] == items[i].(qty := items[i].qty + qty)
    ensures forall i :: 0 <= i < |items| && items[i].id != id ==> r[i] == items[i]
  {
    if items == [] then []
    else [if items[0].id == id then items[0].(qty := items[0].qty + qty) else items[0]] + Bumped(items[1..], id, qty)
  }

  /** `add(item, qty)` (lines 23-32): a line already in the cart grows by `qty`, keeping its own
      title, price and image; a new id is appended as a line of `qty`. */
  function Added(items: seq<CartItem>, item: NewItem, qty: int): seq<CartItem> {
    if HasId(items, item.id) then Bumped(items, item.id, qty) else items + [Line(item, qty)]
  }

  /** Adding keeps the cart's order: an existing id changes that line's quantity and nothing else,
      and a new id becomes the last line. */
  lemma AddedLines(items: seq<CartItem>, item: NewItem, qty: int)
    ensures var r := Added(items, item, qty);
      && (HasId(items, item.id) ==>
            |r| == |items|
            && (forall i :: 0 <= i < |r| ==> r[i].id == items[i].id && r[i].title == items[i].title
                                             && r[i].price == items[i].price && r[i].image == items[i].image)
            && (forall i :: 0 <= i < |r| ==> r[i].qty == if items[i].id == item.id then items[i].qty + qty else items[i].qty))
      && (!HasId(items, item.id) ==> |r| == |items| + 1 && r[..|items|] == items && r[|items|] == Line(item, qty))
  {
    var r := Added(items, item, qty);
    if !HasId(items, item.id) {
      assert r[..|items|] == items;
    }
  }

  /** Ids stay unique through `add`. */
  lemma AddedKeepsIdsUnique(items: seq<CartItem>, item: NewItem, qty: int)
    requires IdsUnique(items)
    ensures IdsUnique(Added(items, item, qty))
  {
    var r := Added(items, item, qty);
    if !HasId(items, item.id) {
      forall i, j | 0 <= i < j < |r| ensures r[i].id != r[j].id {
        if j == |items| {
          assert r[i] == items[i];
        } else {
          assert r[i] == items[i] && r[j] == items[j];
        }
      }
    }
  }

  /** Quantities stay positive through `add` of a positive quantity (the default is 1). */
  lemma AddedKeepsQtysPositive(items: seq<CartItem>, item: NewItem, qty: int)
    requires QtysPositive(items) && qty >= 1
    ensures QtysPositive(Added(items, item, qty))
  {
    var r := Added(items, item, qty);
    if !HasId(items, item.id) {
      assert forall i :: 0 <= i < |items| ==> r[i] == items[i];
    }
  }

  /** `s.items.filter(i => i.id !== id)` (line 33). */
  function Removed(items: seq<CartItem>, id: string): (r: seq<CartItem>)
    ensures |r| <= |items|
    ensures forall x :: x in r <==> x in items && x.id != id
  {
    if items == [] then []
    else if items[0].id == id then Removed(items[1..], id)
    else [items[0]] + Removed(items[1..], id)
  }

  /** Removing works line by line: it distributes over concatenation, so the lines kept stay in
      their order. */
  lemma {:induction false} RemovedAppend(a: seq<CartItem>, b: seq<CartItem>, id: string)
    ensures Removed(a + b, id) == Removed(a, id) + Removed(b, id)
  {
    if a == [] {
      assert a + b == b;
    } else {
      assert (a + b)[0] == a[0] && (a + b)[1..] == a[1..] + b;
      RemovedAppend(a[1..], b, id);
      if a[0].id != id {
        assert Removed(a + b, id) == [a[0]] + (Removed(a[1..], id) + Removed(b, id));
      }
    }
  }

  /** Removing an id no line has changes nothing. */
  lemma {:induction false} RemovedAbsent(items: seq<CartItem>, id: string)
    requires !HasId(items, id)
    ensures Removed(items, id) == items
  {
    if items != [] {
      assert !HasId(items[1..], id) by {
        forall i | 0 <= i < |items[1..]| ensures items[1..][i].id != id {
          assert items[1..][i] == items[i + 1];
        }
      }
      RemovedAbsent(items[1..], id);
      assert items == [items[0]] + items[1..];
    }
  }

  /** Quantities stay positive through `remove`: every line kept was a line before. */
  lemma RemovedKeepsQtysPositive(items: seq<CartItem>, id: string)
    requires QtysPositive(items)
    ensures QtysPositive(Removed(items, id))
  {
    var r := Removed(items, id);
    forall i | 0 <= i < |r| ensures r[i].qty >= 1 {
      assert r[i] in r;
      var k :| 0 <= k < |items| && items[k] == r[i];
    }
  }

  /** Ids stay unique through `remove`. */
  lemma {:induction false} RemovedKeepsIdsUnique(items: seq<CartItem>, id: string)
    requires IdsUnique(items)
    ensures IdsUnique(Removed(items, id))
  {
    if items != [] {
      var tail := items[1..];
      TailIdsUnique(items);
      RemovedKeepsIdsUnique(tail, id);
      if items[0].id != id {
        var rt := Removed(tail, id);
        forall x | x in rt ensures x.id != items[0].id {
          var k :| 0 <= k < |tail| && tail[k] == x;
          assert tail[k] == items[k + 1];
        }
        ConsIdsUnique(items[0], rt);
      }
    }
  }

  lemma TailIdsUnique(items: seq<CartItem>)
    requires IdsUnique(items) && items != []
    ensures IdsUnique(items[1..])
  {
    var tail := items[1..];
    forall i, j | 0 <= i < j < |tail| ensures tail[i].id != tail[j].id {
      assert tail[i] == items[i + 1] && tail[j] == items[j + 1];
    }
  }

  lemma ConsIdsUnique(x: CartItem, rest: seq<CartItem>)
    requires IdsUnique(rest) && forall y :: y in rest ==> y.id != x.id
    ensures IdsUnique([x] + rest)
  {
    var r := [x] + rest;
    forall i, j | 0 <= i < j < |r| ensures r[i].id != r[j].id {
      assert r[j] == rest[j - 1] && rest[j - 1] in rest;
      if i > 0 {
        assert r[i] == rest[i - 1];
      }
    }
  }

  /** `Math.max(1, qty)` */
  function AtLeastOne(qty: int): (r: int)
    ensures r >= 1 && r >= qty && (qty >= 1 ==> r == qty)
    ensures qty < 1 ==> r == 1
  {
    if qty > 1 then qty else 1
  }

  /** `s.items.map(i => i.id === id ? {...i, qty: Math.max(1, qty)} : i)` (line 34): the lines with
      this id get quantity `max(1, qty)`, the others are unchanged. */
  function WithQty(items: seq<CartItem>, id: string, qty: int): (r: seq<CartItem>)
    ensures |r| == |items|
    ensures forall i :: 0 <= i < |items| && items[i].id == id ==> r[i] == items[i].(qty := AtLeastOne(qty))
    ensures forall i :: 0 <= i < |items| && items[i].id != id ==> r[i] == items[i]
  {
    if items == [] then []
    else [if items[0].id == id then items[0].(qty := AtLeastOne(qty)) else items[0]] + WithQty(items[1..], id, qty)
  }

  /** `setQty` never brings a quantity below one, and keeps ids and order. */
  lemma WithQtyKeepsInvariants(items: seq<CartItem>, id: string, qty: int)
    ensures forall i :: 0 <= i < |items| ==> WithQty(items, id, qty)[i].id == items[i].id
    ensures QtysPositive(items) ==> QtysPositive(WithQty(items, id, qty))
    ensures IdsUnique(items) ==> IdsUnique(WithQty(items, id, qty))
  {
    var r := WithQty(items, id, qty);
    assert forall i :: 0 <= i < |items| ==> r[i].id == items[i].id;
  }

  /** `cartTotal(items)` (line 38): the sum of price times quantity over the lines. */
  function Total(items: seq<CartItem>): int {
    if items == [] then 0 else items[0].price * items[0].qty + Total(items[1..])
  }

  /** The total of the lines with one id. */
  function IdTotal(items: seq<CartItem>, id: string): int {
    if items == [] then 0
    else (if items[0].id == id then items[0].price * items[0].qty else 0) + IdTotal(items[1..], id)
  }

  /** The sum of the prices of the lines with one id (one price, or none, when ids are unique). */
  function IdPrice(items: seq<CartItem>, id: string): int {
    if items == [] then 0 else (if items[0].id == id then items[0].price else 0) + IdPrice(items[1..], id)
  }

  /** The empty cart totals zero, and the total is additive over concatenation. */
  lemma {:induction false} TotalAppend(a: seq<CartItem>, b: seq<CartItem>)
    ensures Total([]) == 0
    ensures Total(a + b) == Total(a) + Total(b)
  {
    if a == [] {
      assert a + b == b;
    } else {
      assert (a + b)[0] == a[0] && (a + b)[1..] == a[1..] + b;
      TotalAppend(a[1..], b);
    }
  }

  /** `add` raises the total by `qty` times the price of the line it grows, or of the new line. */
  lemma AddedTotal(items: seq<CartItem>, item: NewItem, qty: int)
    ensures HasId(items, item.id) ==> Total(Added(items, item, qty)) == Total(items) + qty * IdPrice(items, item.id)
    ensures !HasId(items, item.id) ==> Total(Added(items, item, qty)) == Total(items) + item.price * qty
  {
    if HasId(items, item.id) {
      BumpedTotal(items, item.id, qty);
    } else {
      TotalAppend(items, [Line(item, qty)]);
    }
  }

  lemma {:induction false} BumpedTotal(items: seq<CartItem>, id: string, qty: int)
    ensures Total(Bumped(items, id, qty)) == Total(items) + qty * IdPrice(items, id)
  {
    if items != [] {
      BumpedTotal(items[1..], id, qty);
      var r := Bumped(items, id, qty);
      assert r[1..] == Bumped(items[1..], id, qty);
      if items[0].id == id {
        assert r[0].price * r[0].qty == items[0].price * items[0].qty + qty * items[0].price;
      }
    }
  }

  /** `remove` lowers the total by exactly the lines it drops. */
  lemma {:induction false} RemovedTotal(items: seq<CartItem>, id: string)
    ensures Total(Removed(items, id)) == Total(items) - IdTotal(items, id)
  {
    if items != [] {
      RemovedTotal(items[1..], id);
      if items[0].id != id {
        assert Removed(items, id) == [items[0]] + Removed(items[1..], id);
        assert Removed(items, id)[1..] == Removed(items[1..], id);
      }
    }
  }

  /** With unique ids at most one line has a given id, so `IdPrice` is that line's price. */
  lemma {:induction false} IdPriceUnique(items: seq<CartItem>, k: nat)
    requires IdsUnique(items) && k < |items|
    ensures IdPrice(items, items[k].id) == items[k].price
  {
    var tail := items[1..];
    assert IdsUnique(tail) by {
      forall i, j | 0 <= i < j < |tail| ensures tail[i].id != tail[j].id {
        assert tail[i] == items[i + 1] && tail[j] == items[j + 1];
      }
    }
    if k == 0 {
      NoIdPrice(tail, items[0].id);
    } else {
      IdPriceUnique(tail, k - 1);
      assert tail[k - 1] == items[k];
    }
  }

  lemma {:induction false} NoIdPrice(items: seq<CartItem>, id: string)
    requires forall i :: 0 <= i < |items| ==> items[i].id != id
    ensures IdPrice(items, id) == 0
  {
    if items != [] {
      assert forall i :: 0 <= i < |items[1..]| ==> items[1..][i] == items[i + 1];
      NoIdPrice(items[1..], id);
    }
  }

  /** The zustand store: `items` and the four actions that replace it. */
  class CartStore {
    var items: seq<CartItem>

    /** `items: load()`: the saved list, or the empty cart when nothing was saved or it does not
        parse (`None`). */
    constructor (saved: Option<seq<CartItem>>)
      ensures items == saved.GetOr([])
    {
      items := saved.GetOr([]);
    }

    /** `add(item, qty)`; the default quantity is 1. */
    method Add(item: NewItem, qty: int)
      modifies this
      ensures items == Added(old(items), item, qty)
      ensures IdsUnique(old(items)) ==> IdsUnique(items)
      ensures Total(items) == Total(old(items)) + qty * (if HasId(old(items), item.id) then IdPrice(old(items), item.id) else item.price)
    {
      AddedTotal(items, item, qty);
      if IdsUnique(items) {
        AddedKeepsIdsUnique(items, item, qty);
      }
      items := Added(items, item, qty);
    }

    method Remove(id: string)
      modifies this
      ensures items == Removed(old(items), id)
      ensures IdsUnique(old(items)) ==> IdsUnique(items)
      ensures Total(items) == Total(old(items)) - IdTotal(old(items), id)
    {
      if IdsUnique(items) {
        RemovedKeepsIdsUnique(items, id);
      }
      RemovedTotal(items, id);
      items := Removed(items, id);
    }

    method SetQty(id: string, qty: int)
      modifies this
      ensures items == WithQty(old(items), id, qty)
      ensures IdsUnique(old(items)) ==> IdsUnique(items)
      ensures QtysPositive(old(items)) ==> QtysPositive(items)
    {
      WithQtyKeepsInvariants(items, id, qty);
      items := WithQty(items, id, qty);
    }

    method Clear()
      modifies this
      ensures items == [] && Total(items) == 0
    {
      items := [];
    }
  }
}
