/** The statistics of `getDashboardStats`: revenue, the low-stock count, the
    five most recent orders, and the five best-selling products taken from a
    tally of every line item of every order. */
module Dashboard {
  import opened Model
  import opened Seqs

  function OrderTotal(o: Order): int
  {
    o.total
  }

  /** `db.orders.reduce((sum, order) => sum + order.total, 0)`. */
  function Revenue(orders: seq<Order>): (r: int)
    ensures (forall i :: 0 <= i < |orders| ==> orders[i].total >= 0) ==> r >= 0
  {
    if forall i :: 0 <= i < |orders| ==> orders[i].total >= 0 then
      SumNonNegative(orders, OrderTotal);
      Sum(orders, OrderTotal)
    else Sum(orders, OrderTotal)
  }

  /** Placing an order raises the revenue by exactly its total. */
  lemma RevenueAppend(orders: seq<Order>, o: Order)
    ensures Revenue(orders + [o]) == Revenue(orders) + o.total
  {
    assert (orders + [o])[..|orders|] == orders;
  }

  /** Reordering the orders, as reading the statistics does, leaves the revenue as it was. */
  lemma RevenuePermutation(a: seq<Order>, b: seq<Order>)
    requires multiset(a) == multiset(b)
    ensures Revenue(a) == Revenue(b)
  {
    SumPermutation(a, b, OrderTotal);
  }

  predicate LowStock(p: Product)
  {
    p.stock < 20
  }

  /** `db.products.filter(p => p.stock < 20).length`. */
  function LowStockCount(ps: seq<Product>): (n: nat)
    ensures n <= |ps|
    ensures n == 0 <==> forall i :: 0 <= i < |ps| ==> !LowStock(ps[i])
    ensures n == |set i | 0 <= i < |ps| && LowStock(ps[i])|
  {
    var low := Filter(ps, LowStock);
    assert |low| > 0 ==> low[0] in ps && LowStock(low[0]);
    FilterLength(ps, LowStock);
    assert Passing(ps, LowStock) == set i | 0 <= i < |ps| && LowStock(ps[i]);
    |low|
  }

  function CreatedAt(o: Order): int
  {
    o.createdAt
  }

  function TotalSold(s: ProductSale): int
  {
    s.totalSold
  }

  /** All line items of all orders, order by order (the two nested `forEach`es). */
  function AllItems(orders: seq<Order>): seq<OrderItem>
  {
    if orders == [] then [] else AllItems(orders[..|orders| - 1]) + orders[|orders| - 1].items
  }

  /** The units of product `productId` over `items`. */
  function SoldOf(items: seq<OrderItem>, productId: int): int
  {
    Sum(items, (it: OrderItem) => if it.productId == productId then it.quantity else 0)
  }

  lemma SoldOfAppend(items: seq<OrderItem>, x: OrderItem, productId: int)
    ensures SoldOf(items + [x], productId) == SoldOf(items, productId) + (if x.productId == productId then x.quantity else 0)
  {
    assert (items + [x])[..|items|] == items;
  }

  lemma {:induction false} SoldOfAbsent(items: seq<OrderItem>, productId: int)
    requires forall j :: 0 <= j < |items| ==> items[j].productId != productId
    ensures SoldOf(items, productId) == 0
  {
    if items != [] {
      SoldOfAbsent(items[..|items| - 1], productId);
    }
  }

  /** The first line item of product `productId`. */
  function ItemIndex(items: seq<OrderItem>, productId: int): int
  {
    FirstIndex(items, (it: OrderItem) => it.productId == productId)
  }

  /** The entry of the tally for product `productId`. */
  function SaleIndex(sales: seq<ProductSale>, productId: int): int
  {
    FirstIndex(sales, (s: ProductSale) => s.item.productId == productId)
  }

  /** One step of the tally: the first item seen of a product opens its entry
      with a copy of that item, and every item adds its quantity. */
  function Record(sales: seq<ProductSale>, item: OrderItem): (r: seq<ProductSale>)
    ensures |r| == |sales| + (if SaleIndex(sales, item.productId) < 0 then 1 else 0)
    ensures SaleIndex(r, item.productId) >= 0
  {
    var k := SaleIndex(sales, item.productId);
    if k < 0 then
      FirstIndexAppend(sales, ProductSale(item, item.quantity), (s: ProductSale) => s.item.productId == item.productId);
      sales + [ProductSale(item, item.quantity)]
    else
      var r := sales[k := sales[k].(totalSold := sales[k].totalSold + item.quantity)];
      assert r[k].item.productId == item.productId;
      r
  }

  /** The tally of `items`, entries in order of first appearance. */
  function SalesOf(items: seq<OrderItem>): (r: seq<ProductSale>)
    ensures |r| <= |items|
  {
    if items == [] then [] else Record(SalesOf(items[..|items| - 1]), items[|items| - 1])
  }

  /** Recording one item more extends the tally of the items before it. */
  lemma SalesOfSnoc(items: seq<OrderItem>, x: OrderItem)
    ensures SalesOf(items + [x]) == Record(SalesOf(items), x)
  {
    assert (items + [x])[..|items|] == items;
  }

  /** The items of one order more follow the items of the orders before it. */
  lemma AllItemsSnoc(orders: seq<Order>, i: nat)
    requires i < |orders|
    ensures AllItems(orders[..i + 1]) == AllItems(orders[..i]) + orders[i].items
  {
    assert orders[..i + 1][..i] == orders[..i];
  }

  lemma SnocSlice(done: seq<OrderItem>, items: seq<OrderItem>, j: nat)
    requires j < |items|
    ensures done + items[..j + 1] == (done + items[..j]) + [items[j]]
  {
    assert items[..j + 1] == items[..j] + [items[j]];
  }

  /** The entry `s` is right for `items`: it holds the first item of its
      product and the units of that product sold over all of `items`. */
  predicate EntryRight(s: ProductSale, items: seq<OrderItem>)
  {
    var k := ItemIndex(items, s.item.productId);
    0 <= k && s.item == items[k] && s.totalSold == SoldOf(items, s.item.productId)
  }

  /** No two entries are for the same product. */
  predicate DistinctProducts(sales: seq<ProductSale>)
  {
    forall i, j :: 0 <= i < j < |sales| ==> sales[i].item.productId != sales[j].item.productId
  }

  /** Every product that occurs in `items` has an entry. */
  predicate Covers(sales: seq<ProductSale>, items: seq<OrderItem>)
  {
    forall j :: 0 <= j < |items| ==> SaleIndex(sales, items[j].productId) >= 0
  }

  /** `sales` is the tally of `items`: one entry per product that occurs and
      no other, each entry right for `items`. */
  predicate Tallies(sales: seq<ProductSale>, items: seq<OrderItem>)
  {
    DistinctProducts(sales)
    && (forall i :: 0 <= i < |sales| ==> EntryRight(sales[i], items))
    && Covers(sales, items)
  }

  /** The tally is right for every list of items. */
  lemma {:induction false} SalesOfTallies(items: seq<OrderItem>)
    ensures Tallies(SalesOf(items), items)
  {
    if items != [] {
      var p := items[..|items| - 1];
      SalesOfTallies(p);
      SplitLast(items);
      RecordTallies(SalesOf(p), p, items[|items| - 1]);
    }
  }

  /** Recording one more item keeps the tally right. */
  lemma RecordTallies(sales: seq<ProductSale>, items: seq<OrderItem>, x: OrderItem)
    requires Tallies(sales, items)
    ensures Tallies(Record(sales, x), items + [x])
  {
    if SaleIndex(sales, x.productId) < 0 {
      RecordNew(sales, items, x);
    } else {
      RecordExisting(sales, items, x);
    }
  }

  /** An entry that was right stays right for one item more when it gains
      that item's quantity exactly when the item is of its product. */
  lemma EntryRightStep(s: ProductSale, items: seq<OrderItem>, x: OrderItem, s': ProductSale)
    requires EntryRight(s, items)
    requires s'.item == s.item
    requires s'.totalSold == s.totalSold + (if x.productId == s.item.productId then x.quantity else 0)
    ensures EntryRight(s', items + [x])
  {
    FirstIndexAppend(items, x, (it: OrderItem) => it.productId == s.item.productId);
    SoldOfAppend(items, x, s.item.productId);
    var k := ItemIndex(items, s.item.productId);
    assert (items + [x])[k] == items[k];
  }

  /** An item of a product not yet tallied opens a new entry. */
  lemma RecordNew(sales: seq<ProductSale>, items: seq<OrderItem>, x: OrderItem)
    requires Tallies(sales, items) && SaleIndex(sales, x.productId) < 0
    ensures Tallies(Record(sales, x), items + [x])
  {
    var r := Record(sales, x);
    assert r == sales + [ProductSale(x, x.quantity)];
    forall i | 0 <= i < |sales| ensures EntryRight(r[i], items + [x]) {
      assert r[i] == sales[i] && sales[i].item.productId != x.productId;
      EntryRightStep(sales[i], items, x, r[i]);
    }
    FirstEntryRight(items, x);
    CoversNew(sales, items, x);
    DistinctNew(sales, x);
  }

  lemma DistinctNew(sales: seq<ProductSale>, x: OrderItem)
    requires DistinctProducts(sales) && SaleIndex(sales, x.productId) < 0
    ensures DistinctProducts(sales + [ProductSale(x, x.quantity)])
  {
    var r := sales + [ProductSale(x, x.quantity)];
    forall i, j | 0 <= i < j < |r| ensures r[i].item.productId != r[j].item.productId {
      assert r[i] == sales[i];
    }
  }

  /** An item of a product absent from `items` is the first of its product,
      and its quantity is all that was sold of it. */
  lemma FirstEntryRight(items: seq<OrderItem>, x: OrderItem)
    requires forall j :: 0 <= j < |items| ==> items[j].productId != x.productId
    ensures EntryRight(ProductSale(x, x.quantity), items + [x])
  {
    SoldOfAbsent(items, x.productId);
    SoldOfAppend(items, x, x.productId);
    FirstIndexAppend(items, x, (it: OrderItem) => it.productId == x.productId);
  }

  lemma CoversNew(sales: seq<ProductSale>, items: seq<OrderItem>, x: OrderItem)
    requires Covers(sales, items)
    ensures Covers(sales + [ProductSale(x, x.quantity)], items + [x])
  {
    var r := sales + [ProductSale(x, x.quantity)];
    var items' := items + [x];
    forall j | 0 <= j < |items'| ensures SaleIndex(r, items'[j].productId) >= 0 {
      if j < |items| {
        var m := SaleIndex(sales, items[j].productId);
        assert r[m].item.productId == items'[j].productId;
      } else {
        assert r[|sales|].item.productId == items'[j].productId;
      }
    }
  }

  /** An item of a product already tallied adds to that product's entry only. */
  lemma RecordExisting(sales: seq<ProductSale>, items: seq<OrderItem>, x: OrderItem)
    requires Tallies(sales, items) && SaleIndex(sales, x.productId) >= 0
    ensures Tallies(Record(sales, x), items + [x])
  {
    var r := Record(sales, x);
    forall i | 0 <= i < |sales| ensures r[i].item == sales[i].item && EntryRight(r[i], items + [x]) {
      ExistingEntryStep(sales, x, i);
      EntryRightStep(sales[i], items, x, r[i]);
    }
    CoversExisting(sales, items, x, r);
    DistinctSame(sales, r);
  }

  /** Recording an item of a tallied product keeps every entry's item and
      adds the quantity to the one entry of that product. */
  lemma ExistingEntryStep(sales: seq<ProductSale>, x: OrderItem, i: nat)
    requires DistinctProducts(sales) && SaleIndex(sales, x.productId) >= 0 && i < |sales|
    ensures var r := Record(sales, x);
      |r| == |sales| && r[i].item == sales[i].item
      && r[i].totalSold == sales[i].totalSold + (if x.productId == sales[i].item.productId then x.quantity else 0)
  {
    var k := SaleIndex(sales, x.productId);
    if i != k {
      assert sales[i].item.productId != sales[k].item.productId;
    }
  }

  lemma DistinctSame(sales: seq<ProductSale>, r: seq<ProductSale>)
    requires DistinctProducts(sales)
    requires |r| == |sales| && forall i :: 0 <= i < |sales| ==> r[i].item == sales[i].item
    ensures DistinctProducts(r)
  {
  }

  lemma CoversExisting(sales: seq<ProductSale>, items: seq<OrderItem>, x: OrderItem, r: seq<ProductSale>)
    requires Covers(sales, items) && SaleIndex(sales, x.productId) >= 0
    requires |r| == |sales| && forall i :: 0 <= i < |sales| ==> r[i].item == sales[i].item
    ensures Covers(r, items + [x])
  {
    var items' := items + [x];
    forall j | 0 <= j < |items'| ensures SaleIndex(r, items'[j].productId) >= 0 {
      var m := SaleIndex(sales, items'[j].productId);
      assert r[m].item.productId == items'[j].productId;
    }
  }

  /** One step of the inner `forEach`. */
  method RecordSale(sales: seq<ProductSale>, item: OrderItem) returns (r: seq<ProductSale>)
    ensures r == Record(sales, item)
  {
    r := sales;
    var k := SaleIndex(r, item.productId);
    if k < 0 {
      r := r + [ProductSale(item, 0)];
      k := |r| - 1;
    }
    r := r[k := r[k].(totalSold := r[k].totalSold + item.quantity)];
  }

  /** The tally of the items of `orders`, as the two nested `forEach`es build
      `productSales`: a missing entry is opened with the item and a count of
      zero, then the item's quantity is added. */
  method TallySales(orders: seq<Order>) returns (sales: seq<ProductSale>)
    ensures sales == SalesOf(AllItems(orders))
  {
    sales := [];
    var i := 0;
    while i < |orders|
      invariant 0 <= i <= |orders|
      invariant sales == SalesOf(AllItems(orders[..i]))
    {
      var items := orders[i].items;
      ghost var done := AllItems(orders[..i]);
      var j := 0;
      assert done + items[..j] == done;
      while j < |items|
        invariant 0 <= j <= |items|
        invariant sales == SalesOf(done + items[..j])
      {
        SalesOfSnoc(done + items[..j], items[j]);
        SnocSlice(done, items, j);
        sales := RecordSale(sales, items[j]);
        j := j + 1;
      }
      assert items[..j] == items;
      AllItemsSnoc(orders, i);
      i := i + 1;
    }
    assert orders[..i] == orders;
  }

  /** A property key that JavaScript treats as an array index. */
  predicate IsIndexKey(k: int)
  {
    0 <= k < 4294967295
  }

  function IsIndexSale(s: ProductSale): bool
  {
    IsIndexKey(s.item.productId)
  }

  function IsOtherSale(s: ProductSale): bool
  {
    !IsIndexKey(s.item.productId)
  }

  function NegatedProductId(s: ProductSale): int
  {
    -s.item.productId
  }

  /** `Object.values(productSales)`: the entries, each once. */
  function ObjectValues(sales: seq<ProductSale>): (r: seq<ProductSale>)
    ensures multiset(r) == multiset(sales)
  {
    FilterSplit(sales, IsIndexSale, IsOtherSale);
    SortDesc(Filter(sales, IsIndexSale), NegatedProductId) + Filter(sales, IsOtherSale)
  }

  /** `Object.values` lists the entries whose key is an array index first,
      in ascending key order, then the others in insertion order. */
  lemma ObjectValuesOrder(sales: seq<ProductSale>)
    ensures var r := ObjectValues(sales);
      forall i, j :: 0 <= i < j < |r| && IsIndexSale(r[j]) ==>
        IsIndexSale(r[i]) && r[i].item.productId <= r[j].item.productId
  {
    SortDescSorts(Filter(sales, IsIndexSale), NegatedProductId);
    IndexKeysFirst(sales, SortDesc(Filter(sales, IsIndexSale), NegatedProductId), Filter(sales, IsOtherSale));
  }

  lemma IndexKeysFirst(sales: seq<ProductSale>, index: seq<ProductSale>, other: seq<ProductSale>)
    requires multiset(index) == multiset(Filter(sales, IsIndexSale))
    requires SortedDesc(index, NegatedProductId)
    requires other == Filter(sales, IsOtherSale)
    ensures forall i, j :: 0 <= i < j < |index + other| && IsIndexSale((index + other)[j]) ==>
      IsIndexSale((index + other)[i]) && (index + other)[i].item.productId <= (index + other)[j].item.productId
  {
    var r := index + other;
    forall i | 0 <= i < |index| ensures IsIndexSale(index[i]) {
      assert index[i] in multiset(Filter(sales, IsIndexSale));
    }
    forall i | |index| <= i < |r| ensures !IsIndexSale(r[i]) {
      assert r[i] == other[i - |index|];
    }
  }

  /** The statistics `getDashboardStats` reports for the given state. The
      revenue is summed before the orders are sorted; the recent orders and
      the sales tally come from the orders sorted newest first. */
  function Statistics(users: seq<User>, products: seq<Product>, orders: seq<Order>): (r: Stats)
    ensures r.totalOrders == |orders| && r.totalUsers == |users| && r.totalProducts == |products|
    ensures r.lowStockProducts <= |products|
    ensures |r.recentOrders| == (if |orders| <= 5 then |orders| else 5)
    ensures multiset(r.recentOrders) <= multiset(orders)
    ensures |r.topProducts| <= 5
  {
    var sorted := SortDesc(orders, CreatedAt);
    Stats(
      Revenue(orders),
      |orders|,
      |users|,
      |products|,
      LowStockCount(products),
      Top(orders, CreatedAt, 5),
      Top(ObjectValues(SalesOf(AllItems(sorted))), TotalSold, 5))
  }

  /** The statistics as `getDashboardStats` assembles them: the recent
      orders are the first five of the sorted orders, the best sellers come
      from the tally of the sorted orders. */
  lemma StatisticsAssembled(users: seq<User>, products: seq<Product>, orders: seq<Order>, sorted: seq<Order>, tally: seq<ProductSale>)
    requires sorted == SortDesc(orders, CreatedAt) && tally == SalesOf(AllItems(sorted))
    ensures Statistics(users, products, orders)
      == Stats(Revenue(orders), |orders|, |users|, |products|, LowStockCount(products),
               Take(sorted, 5), Top(ObjectValues(tally), TotalSold, 5))
  {
  }

  /** `getDashboardStats`'s computation, step by step: the revenue and the
      counts over the orders as stored, then the orders sorted newest first,
      the first five of them, and the best sellers of their tally. */
  method ComputeStatistics(users: seq<User>, products: seq<Product>, orders: seq<Order>) returns (stats: Stats)
    ensures stats == Statistics(users, products, orders)
  {
    var totalRevenue := Revenue(orders);
    var totalOrders := |orders|;
    var lowStock := LowStockCount(products);
    var sorted := SortDesc(orders, CreatedAt);
    var recent := Take(sorted, 5);
    var tally := TallySales(sorted);
    var top := Top(ObjectValues(tally), TotalSold, 5);
    StatisticsAssembled(users, products, orders, sorted, tally);
    stats := Stats(totalRevenue, totalOrders, |users|, |products|, lowStock, recent, top);
  }

  /** Reading the statistics reorders the stored orders, but reading them
      again from the reordered orders answers exactly the same. */
  lemma StatisticsStable(users: seq<User>, products: seq<Product>, orders: seq<Order>)
    ensures Statistics(users, products, SortDesc(orders, CreatedAt)) == Statistics(users, products, orders)
  {
    var sorted := SortDesc(orders, CreatedAt);
    SortDescSorts(orders, CreatedAt);
    SortDescSorted(sorted, CreatedAt);
    RevenuePermutation(sorted, orders);
    assert |sorted| == |orders|;
  }

  /** The best sellers: at most five, by non-increasing units sold, and each
      reports exactly the units of its product over the orders. */
  lemma TopProductsSound(users: seq<User>, products: seq<Product>, orders: seq<Order>)
    ensures var top := Statistics(users, products, orders).topProducts;
      var items := AllItems(SortDesc(orders, CreatedAt));
      |top| <= 5 && SortedDesc(top, TotalSold)
      && forall i :: 0 <= i < |top| ==> top[i].totalSold == SoldOf(items, top[i].item.productId)
  {
    var items := AllItems(SortDesc(orders, CreatedAt));
    SalesOfTallies(items);
    TopEntryRight(SalesOf(items), items);
    TopBest(ObjectValues(SalesOf(items)), TotalSold, 5, Statistics(users, products, orders).topProducts);
  }

  lemma TopEntryRight(tally: seq<ProductSale>, items: seq<OrderItem>)
    requires Tallies(tally, items)
    ensures var top := Top(ObjectValues(tally), TotalSold, 5);
      forall i :: 0 <= i < |top| ==> top[i].totalSold == SoldOf(items, top[i].item.productId)
  {
    var values := ObjectValues(tally);
    var top := Top(values, TotalSold, 5);
    forall i | 0 <= i < |top| ensures top[i].totalSold == SoldOf(items, top[i].item.productId) {
      assert top[i] in multiset(top);
      assert top[i] in multiset(values);
      InTallyEntryRight(tally, items, top[i]);
    }
  }

  lemma InTallyEntryRight(tally: seq<ProductSale>, items: seq<OrderItem>, x: ProductSale)
    requires Tallies(tally, items) && x in multiset(tally)
    ensures x.totalSold == SoldOf(items, x.item.productId)
  {
    assert x in tally;
    var j :| 0 <= j < |tally| && tally[j] == x;
    assert EntryRight(tally[j], items);
  }
}
