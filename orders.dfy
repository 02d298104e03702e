/** Checkout and the order queries: the snapshot of the caller's cart into
    line items, the order total, `getOrders`, `getOrder`, and the id
    discipline of the stored orders. */
module Orders {
  import opened Model
  import opened Seqs
  import opened Catalogue
  import opened Cart

  function LineTotal(item: OrderItem): int
  {
    item.price * item.quantity
  }

  /** `items.reduce((sum, item) => sum + item.price * item.quantity, 0)`. */
  function Total(items: seq<OrderItem>): (r: int)
    ensures (forall i :: 0 <= i < |items| ==> items[i].price >= 0 && items[i].quantity >= 0) ==> r >= 0
  {
    if forall i :: 0 <= i < |items| ==> items[i].price >= 0 && items[i].quantity >= 0 then
      SumNonNegative(items, LineTotal);
      Sum(items, LineTotal)
    else Sum(items, LineTotal)
  }

  /** The total of two lists of lines is the sum of their totals. */
  lemma TotalAppend(a: seq<OrderItem>, b: seq<OrderItem>)
    ensures Total(a + b) == Total(a) + Total(b)
  {
    SumAppend(a, b, LineTotal);
  }

  /** The line item frozen from a cart entry and its catalogue product. */
  function ItemFrom(e: CartEntry, p: Product): OrderItem
  {
    OrderItem(e.productId, p.name, p.price, e.quantity, p.image)
  }

  /** Checkout's `userCartItems.map(...)`: one line per entry, in cart order,
      copying the entry's product id and quantity and the name, price and image
      of the first catalogue product with that id. It fails when some entry's
      product is missing (the server then reads a field of `undefined`). */
  function Snapshot(entries: seq<CartEntry>, products: seq<Product>): (r: Option<seq<OrderItem>>)
    ensures r.None? <==> exists i :: 0 <= i < |entries| && FindProduct(products, entries[i].productId).None?
    ensures r.Some? ==> |r.value| == |entries|
    ensures r.Some? ==> forall i :: 0 <= i < |entries| ==>
      var p := FindProduct(products, entries[i].productId);
      p.Some? && r.value[i] == OrderItem(entries[i].productId, p.value.name, p.value.price, entries[i].quantity, p.value.image)
  {
    if entries == [] then Some([])
    else
      var p := FindProduct(products, entries[0].productId);
      var rest := Snapshot(entries[1..], products);
      assert forall i :: 1 <= i < |entries| ==> entries[i] == entries[1..][i - 1];
      if p.None? then None
      else if rest.None? then None
      else
        var r := [ItemFrom(entries[0], p.value)] + rest.value;
        assert forall i :: 1 <= i < |r| ==> r[i] == rest.value[i - 1];
        Some(r)
  }

  /** The cart of the example checkout: two entries of user 9. */
  lemma ExampleCart(cart: seq<CartEntry>)
    requires cart == AddItem(AddItem([], 9, 1, 2, 0), 9, 2, 1, 0)
    ensures cart == [CartEntry(1, 9, 1, 2, 0), CartEntry(2, 9, 2, 1, 0)]
    ensures UserEntries(cart, 9) == cart
  {
    var c1 := AddItem([], 9, 1, 2, 0);
    assert c1 == [CartEntry(1, 9, 1, 2, 0)];
    assert EntryIndex(c1, 9, 2) == -1;
    FilterAll(cart, (e: CartEntry) => e.userId == 9);
  }

  /** The example checkout: prices 10.00 and 20.00, two of the first and one
      of the second in the cart; the order's lines come to 40.00 and the
      caller's cart is empty afterwards. */
  lemma CheckoutExample(products: seq<Product>, cart: seq<CartEntry>)
    requires products == [Product(1, "A", 1000, "C", "a.png", "a", 5, 40, 0), Product(2, "B", 2000, "C", "b.png", "b", 5, 40, 0)]
    requires cart == AddItem(AddItem([], 9, 1, 2, 0), 9, 2, 1, 0)
    ensures Snapshot(UserEntries(cart, 9), products) == Some([OrderItem(1, "A", 1000, 2, "a.png"), OrderItem(2, "B", 2000, 1, "b.png")])
    ensures Total(Snapshot(UserEntries(cart, 9), products).value) == 4000
    ensures UserEntries(ClearUser(cart, 9), 9) == []
  {
    ExampleCart(cart);
    assert FindProduct(products, 1) == Some(products[0]);
    assert FindProduct(products, 2) == Some(products[1]);
    var s := Snapshot(cart, products);
    assert s.Some? && |s.value| == 2;
    var items := [OrderItem(1, "A", 1000, 2, "a.png"), OrderItem(2, "B", 2000, 1, "b.png")];
    assert s.value == items;
    assert items[..1] == [items[0]];
    assert Sum(items[..1], LineTotal) == 2000;
    assert Sum(items, LineTotal) == Sum(items[..1], LineTotal) + 2000;
  }

  /** `getOrders`: the orders of `userId`, in stored order. */
  function OrdersOf(orders: seq<Order>, userId: int): (r: seq<Order>)
    ensures forall o :: o in r <==> o in orders && o.userId == userId
    ensures |r| == |set i | 0 <= i < |orders| && orders[i].userId == userId|
  {
    var mine := (o: Order) => o.userId == userId;
    FilterLength(orders, mine);
    assert Passing(orders, mine) == set i | 0 <= i < |orders| && orders[i].userId == userId;
    Filter(orders, mine)
  }

  /** Order of `getOrders`: a newly placed order comes last among its
      owner's orders and leaves everybody else's unchanged. */
  lemma OrdersOfAppend(orders: seq<Order>, o: Order, userId: int)
    ensures OrdersOf(orders + [o], userId) == OrdersOf(orders, userId) + (if o.userId == userId then [o] else [])
  {
    FilterAppend(orders, [o], (x: Order) => x.userId == userId);
    FilterSingleton(o, (x: Order) => x.userId == userId);
  }

  /** `getOrder`'s lookup: the first order with that id placed by `userId`. */
  function OwnedOrderIndex(orders: seq<Order>, orderId: int, userId: int): int
  {
    FirstIndex(orders, (o: Order) => o.id == orderId && o.userId == userId)
  }

  /** `updateOrderStatus`'s lookup: the first order with that id. */
  function OrderIndex(orders: seq<Order>, orderId: int): int
  {
    FirstIndex(orders, (o: Order) => o.id == orderId)
  }

  predicate IdsDistinct(orders: seq<Order>)
  {
    forall i, j :: 0 <= i < j < |orders| ==> orders[i].id != orders[j].id
  }

  predicate IdsInRange(orders: seq<Order>)
  {
    forall i :: 0 <= i < |orders| ==> 1 <= orders[i].id <= |orders|
  }

  /** Every stored order's total is the sum of its own lines. */
  predicate TotalsMatch(orders: seq<Order>)
  {
    forall i :: 0 <= i < |orders| ==> orders[i].total == Total(orders[i].items)
  }

  /** With distinct order ids, asking for another user's order finds nothing
      (the server answers 404, not the other user's order). */
  lemma OtherUsersOrderHidden(orders: seq<Order>, k: nat, userId: int)
    requires IdsDistinct(orders)
    requires k < |orders| && orders[k].userId != userId
    ensures OwnedOrderIndex(orders, orders[k].id, userId) == -1
  {
  }

  /** Appending an order numbered one past the list, whose total is the sum
      of its lines, keeps ids distinct and in range and totals right. */
  lemma AppendKeepsOrders(orders: seq<Order>, o: Order)
    requires IdsDistinct(orders) && IdsInRange(orders) && TotalsMatch(orders)
    requires o.id == |orders| + 1 && o.total == Total(o.items)
    ensures IdsDistinct(orders + [o]) && IdsInRange(orders + [o]) && TotalsMatch(orders + [o])
  {
    var r := orders + [o];
    assert forall i :: 0 <= i < |orders| ==> r[i] == orders[i];
  }

  /** Distinct ids make every order occur once. */
  lemma {:induction false} DistinctIdsOccurOnce(a: seq<Order>, x: Order)
    requires IdsDistinct(a)
    ensures multiset(a)[x] <= 1
  {
    if a != [] {
      DistinctIdsOccurOnce(a[1..], x);
      assert a == [a[0]] + a[1..];
      if x == a[0] {
        assert forall i :: 0 <= i < |a[1..]| ==> a[1..][i] != x by {
          forall i | 0 <= i < |a[1..]| ensures a[1..][i] != x {
            assert a[1..][i] == a[i + 1];
          }
        }
        assert x !in a[1..];
      }
    }
  }

  /** Two positions holding the same order make it occur twice. */
  lemma OccursTwice(b: seq<Order>, i: nat, j: nat)
    requires i < j < |b| && b[i] == b[j]
    ensures multiset(b)[b[i]] >= 2
  {
    assert b == b[..j] + b[j..];
    assert b[i] in b[..j];
    assert b[j] in b[j..];
  }

  /** Reordering the stored orders (the dashboard's sort) keeps the ids distinct and in range. */
  lemma PermutationKeepsIds(a: seq<Order>, b: seq<Order>)
    requires multiset(a) == multiset(b)
    requires IdsDistinct(a) && IdsInRange(a)
    ensures IdsDistinct(b) && IdsInRange(b)
  {
    assert |a| == |multiset(a)| == |multiset(b)| == |b|;
    forall i | 0 <= i < |b| ensures 1 <= b[i].id <= |b| {
      assert b[i] in multiset(a);
    }
    forall i, j | 0 <= i < j < |b| ensures b[i].id != b[j].id {
      assert b[i] in multiset(a) && b[j] in multiset(a);
      var p :| 0 <= p < |a| && a[p] == b[i];
      var q :| 0 <= q < |a| && a[q] == b[j];
      if b[i] == b[j] {
        OccursTwice(b, i, j);
        DistinctIdsOccurOnce(a, b[i]);
        assert false;
      }
    }
  }

  /** Reordering the stored orders keeps every total equal to its lines' sum. */
  lemma PermutationKeepsTotals(a: seq<Order>, b: seq<Order>)
    requires multiset(a) == multiset(b)
    requires TotalsMatch(a)
    ensures TotalsMatch(b)
  {
    forall i | 0 <= i < |b| ensures b[i].total == Total(b[i].items) {
      assert b[i] in multiset(a);
    }
  }

  /** Sorting the stored orders by any key keeps ids distinct and in range
      and every total right. */
  lemma SortKeepsOrders(orders: seq<Order>, key: Order -> int)
    requires IdsDistinct(orders) && IdsInRange(orders) && TotalsMatch(orders)
    ensures var sorted := SortDesc(orders, key);
      IdsDistinct(sorted) && IdsInRange(sorted) && TotalsMatch(sorted)
  {
    var sorted := SortDesc(orders, key);
    PermutationKeepsIds(orders, sorted);
    PermutationKeepsTotals(orders, sorted);
  }
}
