/**
 * The cart of the "Create New Order" form in OrderManagement.jsx:
 * a sequence of lines keyed by menu id, and the pure list computations
 * that addItemToOrder, updateQuantity, removeItem and calculateTotal
 * perform before handing the new list to the form's state.
 */
module Cart {

  /** A row of menu_items as the order screen uses it. */
  datatype MenuItem = MenuItem(menuId: int, menuName: string, sellingPrice: real)

  /** One entry of newOrder.items. */
  datatype Line = Line(menuId: int, menuName: string, quantity: int, unitPrice: real)

  /** `items.find(item => item.menu_id === id)` succeeds. */
  predicate HasItem(items: seq<Line>, id: int)
  {
    exists i :: 0 <= i < |items| && items[i].menuId == id
  }

  /** No two lines share a menu id. */
  ghost predicate DistinctIds(items: seq<Line>)
  {
    forall i, j :: 0 <= i < j < |items| ==> items[i].menuId != items[j].menuId
  }

  /** Every line orders at least one unit. */
  ghost predicate PositiveQuantities(items: seq<Line>)
  {
    forall i :: 0 <= i < |items| ==> items[i].quantity >= 1
  }

  /** The invariant every cart operation keeps. */
  ghost predicate ValidCart(items: seq<Line>)
  {
    DistinctIds(items) && PositiveQuantities(items)
  }

  /** Line `l` with its quantity set to `q` (`{ ...item, quantity: q }`). */
  function WithQuantity(l: Line, q: int): Line
  {
    l.(quantity := q)
  }

  /**
   * addItemToOrder: bump every line of this menu item by one if the item is
   * already in the cart, otherwise append a fresh line of quantity 1 priced
   * at the item's selling price.
   */
  function AddItem(items: seq<Line>, m: MenuItem): (r: seq<Line>)
    ensures |r| == if HasItem(items, m.menuId) then |items| else |items| + 1
    ensures forall i :: 0 <= i < |items| && items[i].menuId != m.menuId ==> r[i] == items[i]
    ensures forall i :: 0 <= i < |items| && items[i].menuId == m.menuId ==>
      r[i] == WithQuantity(items[i], items[i].quantity + 1)
    ensures !HasItem(items, m.menuId) ==> r[|items|] == Line(m.menuId, m.menuName, 1, m.sellingPrice)
  {
    if HasItem(items, m.menuId) then
      seq(|items|, i requires 0 <= i < |items| =>
        if items[i].menuId == m.menuId then WithQuantity(items[i], items[i].quantity + 1) else items[i])
    else
      items + [Line(m.menuId, m.menuName, 1, m.sellingPrice)]
  }

  /** addItemToOrder keeps ids distinct and quantities positive, and the item is in the cart afterwards. */
  lemma AddItemKeepsValid(items: seq<Line>, m: MenuItem)
    ensures HasItem(AddItem(items, m), m.menuId)
    ensures DistinctIds(items) ==> DistinctIds(AddItem(items, m))
    ensures PositiveQuantities(items) ==> PositiveQuantities(AddItem(items, m))
  {
  }

  /** `Math.max(1, q + change)`. */
  function ClampedQuantity(q: int, change: int): (r: int)
    ensures r >= 1
    ensures r == q + change || (r == 1 && q + change < 1)
  {
    if q + change > 1 then q + change else 1
  }

  /**
   * updateQuantity: every line of this menu id gets quantity
   * max(1, quantity + change); all other lines stay as they are.
   */
  function UpdateQuantity(items: seq<Line>, menuId: int, change: int): (r: seq<Line>)
    ensures |r| == |items|
    ensures forall i :: 0 <= i < |items| && items[i].menuId != menuId ==> r[i] == items[i]
    ensures forall i :: 0 <= i < |items| && items[i].menuId == menuId ==>
      r[i] == WithQuantity(items[i], ClampedQuantity(items[i].quantity, change)) && r[i].quantity >= 1
  {
    seq(|items|, i requires 0 <= i < |items| =>
      if items[i].menuId == menuId then WithQuantity(items[i], ClampedQuantity(items[i].quantity, change)) else items[i])
  }

  /** updateQuantity keeps ids distinct and quantities positive. */
  lemma UpdateQuantityKeepsValid(items: seq<Line>, menuId: int, change: int)
    ensures DistinctIds(items) ==> DistinctIds(UpdateQuantity(items, menuId, change))
    ensures PositiveQuantities(items) ==> PositiveQuantities(UpdateQuantity(items, menuId, change))
  {
  }

  /** removeItem: `items.filter(item => item.menu_id !== menuId)`. */
  function RemoveItem(items: seq<Line>, menuId: int): (r: seq<Line>)
    ensures forall l :: l in r <==> l in items && l.menuId != menuId
    ensures |r| <= |items|
  {
    if items == [] then []
    else
      var rest := RemoveItem(items[1..], menuId);
      assert forall l :: l in items[1..] ==> l in items;
      if items[0].menuId == menuId then rest else [items[0]] + rest
  }

  /** The amount a line contributes to the total. */
  function Amount(l: Line): real
  {
    l.quantity as real * l.unitPrice
  }

  /**
   * calculateTotal: `items.reduce((sum, item) => sum + item.quantity * item.unit_price, 0)`,
   * a left fold, so the last line is added last.
   */
  function Total(items: seq<Line>): (r: real)
    ensures items == [] ==> r == 0.0
  {
    if items == [] then 0.0 else Total(items[..|items| - 1]) + Amount(items[|items| - 1])
  }

  // ---------------------------------------------------------------------
  // removeItem

  /** Removing a menu id that is not in the cart gives the cart back unchanged. */
  lemma {:induction false} RemoveAbsentIsIdentity(items: seq<Line>, menuId: int)
    requires !HasItem(items, menuId)
    ensures RemoveItem(items, menuId) == items
  {
    if items != [] {
      assert items[0].menuId != menuId;
      assert !HasItem(items[1..], menuId) by {
        forall i | 0 <= i < |items[1..]| ensures items[1..][i].menuId != menuId {
          assert items[1..][i] == items[i + 1];
        }
      }
      RemoveAbsentIsIdentity(items[1..], menuId);
    }
  }

  /** The filter splits over concatenation: the kept lines stay in their original relative order. */
  lemma {:induction false} RemoveDistributes(a: seq<Line>, b: seq<Line>, menuId: int)
    ensures RemoveItem(a + b, menuId) == RemoveItem(a, menuId) + RemoveItem(b, menuId)
  {
    if a == [] {
      assert a + b == b;
    } else {
      assert (a + b)[0] == a[0];
      assert (a + b)[1..] == a[1..] + b;
      RemoveDistributes(a[1..], b, menuId);
    }
  }

  /** After removal no line carries the removed id, and the cart invariant still holds. */
  lemma {:induction false} RemoveKeepsValid(items: seq<Line>, menuId: int)
    ensures !HasItem(RemoveItem(items, menuId), menuId)
    ensures ValidCart(items) ==> ValidCart(RemoveItem(items, menuId))
  {
    var r := RemoveItem(items, menuId);
    forall i | 0 <= i < |r| ensures r[i].menuId != menuId {
      assert r[i] in r;
    }
    if items != [] && ValidCart(items) {
      var rest := RemoveItem(items[1..], menuId);
      assert ValidCart(items[1..]) by {
        forall i | 0 <= i < |items[1..]| ensures items[1..][i] == items[i + 1] { }
      }
      RemoveKeepsValid(items[1..], menuId);
      if items[0].menuId != menuId {
        assert r == [items[0]] + rest;
        forall j | 0 <= j < |rest| ensures rest[j].menuId != items[0].menuId {
          assert rest[j] in rest;
          var k :| 0 <= k < |items[1..]| && items[1..][k] == rest[j];
          assert items[k + 1] == rest[j];
        }
        forall i | 0 <= i < |r| ensures r[i].quantity >= 1 {
          if i > 0 { assert r[i] == rest[i - 1]; }
        }
      }
    }
  }

  /** With distinct ids, removing a present id drops exactly one line. */
  lemma RemovePresentDropsOne(items: seq<Line>, k: nat)
    requires DistinctIds(items) && k < |items|
    ensures |RemoveItem(items, items[k].menuId)| == |items| - 1
    ensures Total(RemoveItem(items, items[k].menuId)) == Total(items) - Amount(items[k])
  {
    var id := items[k].menuId;
    var pre, post := items[..k], items[k + 1..];
    assert items == pre + [items[k]] + post;
    assert !HasItem(pre, id) by {
      forall i | 0 <= i < |pre| ensures pre[i].menuId != id { assert pre[i] == items[i]; }
    }
    assert !HasItem(post, id) by {
      forall i | 0 <= i < |post| ensures post[i].menuId != id { assert post[i] == items[k + 1 + i]; }
    }
    RemoveDistributes(pre + [items[k]], post, id);
    RemoveDistributes(pre, [items[k]], id);
    RemoveAbsentIsIdentity(pre, id);
    RemoveAbsentIsIdentity(post, id);
    assert RemoveItem([items[k]], id) == [] by {
      assert [items[k]][1..] == [];
    }
    assert RemoveItem(items, id) == pre + post;
    TotalAppend(pre + [items[k]], post);
    TotalAppend(pre, [items[k]]);
    TotalAppend(pre, post);
    assert Total([items[k]]) == Amount(items[k]) by {
      assert [items[k]][..0] == [];
    }
  }

  // ---------------------------------------------------------------------
  // calculateTotal

  /** The total of two carts put together is the sum of their totals. */
  lemma {:induction false} TotalAppend(a: seq<Line>, b: seq<Line>)
    ensures Total(a + b) == Total(a) + Total(b)
  {
    if b == [] {
      assert a + b == a;
    } else {
      var b' := b[..|b| - 1];
      assert (a + b)[..|a + b| - 1] == a + b';
      assert (a + b)[|a + b| - 1] == b[|b| - 1];
      TotalAppend(a, b');
    }
  }

  /** Changing one line changes the total by that line's change in amount. */
  lemma {:induction false} TotalChangeOneLine(a: seq<Line>, b: seq<Line>, k: nat)
    requires |a| == |b| && k < |a|
    requires forall i :: 0 <= i < |a| && i != k ==> a[i] == b[i]
    ensures Total(b) == Total(a) - Amount(a[k]) + Amount(b[k])
  {
    var n := |a| - 1;
    if k == n {
      assert a[..n] == b[..n];
    } else {
      TotalChangeOneLine(a[..n], b[..n], k);
    }
  }

  /** One more unit on a line adds its unit price to its amount. */
  lemma AmountIncrement(x: Line, y: Line)
    requires x.unitPrice == y.unitPrice && y.quantity == x.quantity + 1
    ensures Amount(y) == Amount(x) + x.unitPrice
  {
  }

  /** In a cart with distinct ids, a line other than the `k`-th does not share its id. */
  lemma OtherIdDiffers(items: seq<Line>, i: nat, k: nat)
    requires DistinctIds(items) && i < |items| && k < |items| && i != k
    ensures items[i].menuId != items[k].menuId
  {
  }

  /** Adding an item already in the cart raises the total by exactly that line's unit price. */
  lemma AddExistingRaisesTotal(items: seq<Line>, m: MenuItem, k: nat)
    requires DistinctIds(items) && k < |items| && items[k].menuId == m.menuId
    ensures Total(AddItem(items, m)) == Total(items) + items[k].unitPrice
  {
    var r := AddItem(items, m);
    forall i | 0 <= i < |items| && i != k ensures r[i] == items[i] {
      OtherIdDiffers(items, i, k);
    }
    TotalChangeOneLine(items, r, k);
    AmountIncrement(items[k], r[k]);
  }

  /** Adding a new item raises the total by its selling price. */
  lemma AddNewRaisesTotal(items: seq<Line>, m: MenuItem)
    requires !HasItem(items, m.menuId)
    ensures Total(AddItem(items, m)) == Total(items) + m.sellingPrice
  {
    assert AddItem(items, m)[..|items|] == items;
  }

  /**
   * The "+" and "-" buttons (updateQuantity with change 1 or -1): "+" raises the
   * total by the line's unit price; "-" lowers it by the unit price unless the
   * line is already at quantity 1, where the clamp leaves the total unchanged.
   */
  lemma QuantityButtonsTotal(items: seq<Line>, k: nat, change: int)
    requires DistinctIds(items) && k < |items|
    requires change == 1 || change == -1
    requires items[k].quantity >= 1
    ensures Total(UpdateQuantity(items, items[k].menuId, change)) ==
      if change == 1 then Total(items) + items[k].unitPrice
      else if items[k].quantity > 1 then Total(items) - items[k].unitPrice
      else Total(items)
  {
    var r := UpdateQuantity(items, items[k].menuId, change);
    forall i | 0 <= i < |items| && i != k ensures r[i] == items[i] {
      OtherIdDiffers(items, i, k);
    }
    TotalChangeOneLine(items, r, k);
    if change == 1 {
      AmountIncrement(items[k], r[k]);
    } else if items[k].quantity > 1 {
      AmountIncrement(r[k], items[k]);
    } else {
      assert r[k] == items[k];
    }
  }
}
